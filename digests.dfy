/**
 * The hashing of Main.java: passwords are stored as the lower-case hex text
 * of their SHA-256 digest (sha256), and tokens are signed with HMAC-SHA256
 * (hmacSha256). Both primitives come from the Java platform; here they are
 * parameters, fixed only in the length of their output.
 */
module Digests {
  import opened Wrappers
  import opened Bytes
  import Utf8
  import Base64Url

  /** HMAC-SHA256 (key, message) and SHA-256 (message), both over octets. */
  datatype Crypto = Crypto(hmacSha256: (seq<Byte>, seq<Byte>) -> Digest, sha256: seq<Byte> -> Digest)

  predicate IsLowerHex(c: char) {
    '0' <= c <= '9' || 'a' <= c <= 'f'
  }

  function HexDigit(d: int): (c: char)
    requires 0 <= d < 16
    ensures IsLowerHex(c)
  {
    "0123456789abcdef"[d]
  }

  function HexValue(c: char): int {
    if '0' <= c <= '9' then c as int - '0' as int
    else if 'a' <= c <= 'f' then c as int - 'a' as int + 10
    else 0
  }

  lemma HexValueDigit(d: int)
    requires 0 <= d < 16
    ensures HexValue(HexDigit(d)) == d
  {
  }

  /** String.format("%02x", b): two lower-case hex digits, high nibble first. */
  function HexByte(b: Byte): string {
    [HexDigit(b / 16), HexDigit(b % 16)]
  }

  /** The digest as text: two characters per octet, in order. */
  function Hex(bs: seq<Byte>): (r: string)
    ensures |r| == 2 * |bs|
    ensures forall i :: 0 <= i < |r| ==> IsLowerHex(r[i])
  {
    if bs == [] then "" else Hex(bs[..|bs| - 1]) + HexByte(bs[|bs| - 1])
  }

  /** Reading hex text back, two characters per octet. */
  function UnHex(s: string): seq<int>
    decreases |s|
  {
    if |s| < 2 then [] else UnHex(s[..|s| - 2]) + [HexValue(s[|s| - 2]) * 16 + HexValue(s[|s| - 1])]
  }

  /** Reading two more hex digits appends one octet. */
  lemma UnHexSnoc(h: string, hi: char, lo: char)
    ensures UnHex(h + [hi, lo]) == UnHex(h) + [HexValue(hi) * 16 + HexValue(lo)]
  {
    var t := h + [hi, lo];
    assert t[..|t| - 2] == h && t[|t| - 2] == hi && t[|t| - 1] == lo;
  }

  /** The hex text determines the digest: no two digests share a rendering. */
  lemma {:induction false} UnHexHex(bs: seq<Byte>)
    ensures UnHex(Hex(bs)) == bs
  {
    if bs != [] {
      var init, b := bs[..|bs| - 1], bs[|bs| - 1];
      UnHexHex(init);
      assert Hex(bs) == Hex(init) + [HexDigit(b / 16), HexDigit(b % 16)];
      UnHexSnoc(Hex(init), HexDigit(b / 16), HexDigit(b % 16));
      HexValueDigit(b / 16);
      HexValueDigit(b % 16);
      assert bs == init + [b];
    }
  }

  lemma HexInjective(a: seq<Byte>, b: seq<Byte>)
    ensures Hex(a) == Hex(b) <==> a == b
  {
    if Hex(a) == Hex(b) {
      UnHexHex(a);
      UnHexHex(b);
    }
  }

  /** The loop of sha256 that appends the two hex digits of each octet. */
  method HexDigest(d: seq<Byte>) returns (s: string)
    ensures s == Hex(d)
  {
    s := "";
    var i := 0;
    while i < |d|
      invariant 0 <= i <= |d|
      invariant s == Hex(d[..i])
    {
      assert d[..i + 1][..i] == d[..i];
      s := s + HexByte(d[i]);
      i := i + 1;
    }
    assert d[..i] == d;
  }

  /** sha256(s): the hex text of the digest of the UTF-8 octets of s. */
  function Sha256Hex(s: string, crypto: Crypto): (r: string)
    ensures |r| == 64
  {
    Hex(crypto.sha256(Utf8.Encode(s)))
  }

  /** The stored-hash comparison of login is exactly a comparison of digests. */
  lemma PasswordMatch(password: string, stored: string, crypto: Crypto)
    ensures Sha256Hex(password, crypto) == Sha256Hex(stored, crypto)
            <==> crypto.sha256(Utf8.Encode(password)) == crypto.sha256(Utf8.Encode(stored))
  {
    HexInjective(crypto.sha256(Utf8.Encode(password)), crypto.sha256(Utf8.Encode(stored)));
  }

  /**
   * hmacSha256(data, secret): the base64url text of the MAC. SecretKeySpec
   * refuses an empty key with an exception, which is None here.
   */
  function HmacSha256(data: string, secret: string, crypto: Crypto): (r: Option<string>)
    ensures r.None? <==> secret == ""
    ensures r.Some? ==> |r.value| == 43 && '.' !in r.value
  {
    var key := Utf8.Encode(secret);
    if key == [] then None
    else
      var mac := crypto.hmacSha256(key, Utf8.Encode(data));
      Base64Url.EncodeLength(mac);
      Base64Url.EncodeHasNoDot(mac);
      Some(Base64Url.Encode(mac))
  }
}

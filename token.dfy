/**
 * The bearer token of Main.java (createToken / authenticate): the compact
 * serialization of section 7.1 of RFC 7515 with an HS256 signature (section
 * 3.2 of RFC 7518), segments in base64url without padding (section 5 of
 * RFC 4648). The header is never inspected and the token never expires.
 */
module Token {
  import opened Wrappers
  import opened JavaText
  import Utf8
  import Base64Url
  import opened JsonEncode
  import opened JsonDecode
  import opened JsonRoundTrip
  import opened Digests
  import opened KeyOrders

  /**
   * What the server brings to every request: the signing secret, the
   * primitives, and the iteration orders of the maps built by Map.of
   * (`order`) and of HashMaps (`hashOrder`).
   */
  datatype Env = Env(secret: string, crypto: Crypto, order: KeyOrder, hashOrder: KeyOrder)

  /** A map of strings as the writer walks it: one string member per key, in iteration order. */
  function StringObject(m: map<string, string>, order: KeyOrder): (v: JsonValue)
    requires ValidOrder(order)
    ensures v.JObject? && |v.members| == |order(m.Keys)|
    ensures forall i :: 0 <= i < |v.members| ==> v.members[i].0 in m && v.members[i].1 == JString(m[v.members[i].0])
  {
    var keys := order(m.Keys);
    assert Enumerates(keys, m.Keys);
    JObject(seq(|keys|, i requires 0 <= i < |keys| => (keys[i], JString(m[keys[i]]))))
  }

  /** A map whose keys and values the codec carries unchanged. */
  predicate PlainMap(m: map<string, string>) {
    forall k :: k in m ==> Plain(k) && ':' !in k && Plain(m[k])
  }

  /** Writing a plain map and reading the text back gives the map, whatever the iteration order. */
  lemma StringObjectRoundTrip(m: map<string, string>, order: KeyOrder)
    requires ValidOrder(order) && PlainMap(m)
    ensures DecodeObject(Some(ValueToJson(StringObject(m, order)))) == Some(m)
  {
    var ms := StringObject(m, order).members;
    assert FlatPlain(ms) by {
      forall i | 0 <= i < |ms|
        ensures Plain(ms[i].0) && ':' !in ms[i].0 && ms[i].1.JString? && Plain(ms[i].1.s)
      {
        assert ms[i].0 in m;
      }
    }
    DecodeEncodeFlat(ms);
    StringObjectMapOf(m, order);
  }

  /** The members of a written map denote the map again. */
  lemma StringObjectMapOf(m: map<string, string>, order: KeyOrder)
    requires ValidOrder(order)
    ensures var ms := StringObject(m, order).members;
            (forall i :: 0 <= i < |ms| ==> ms[i].1.JString?) && MapOf(ms) == m
  {
    var keys := order(m.Keys);
    assert Enumerates(keys, m.Keys);
    var ms := StringObject(m, order).members;
    assert forall i :: 0 <= i < |ms| ==> ms[i].0 == keys[i];
    MapOfDistinct(ms);
    var d := MapOf(ms);
    forall k | k in m ensures k in d && d[k] == m[k] {
      var i :| 0 <= i < |keys| && keys[i] == k;
      assert ms[i].0 == k;
    }
    assert d == m;
  }

  /** The claims createToken signs. */
  function Payload(userId: string, email: string, name: string, role: string, sector: string, iat: string): map<string, string>
  {
    map["sub" := userId, "email" := email, "name" := name, "role" := role, "sector" := sector, "iat" := iat]
  }

  const Header: map<string, string> := map["alg" := "HS256", "typ" := "JWT"]

  /** A JSON text as one token segment: its UTF-8 octets in base64url. */
  function Segment(json: string): (r: string)
    ensures '.' !in r
    ensures r == [] <==> json == []
  {
    Base64Url.EncodeHasNoDot(Utf8.Encode(json));
    Base64Url.EncodeEmpty(Utf8.Encode(json));
    Base64Url.Encode(Utf8.Encode(json))
  }

  /** The octets a segment stands for, read back as UTF-8 JSON by parseJsonObject. */
  function SegmentClaims(segment: string): Option<map<string, string>>
  {
    match Base64Url.Decode(segment)
    case None => None
    case Some(octets) =>
      match Utf8.Decode(octets)
      case None => None
      case Some(json) => DecodeObject(Some(json))
  }

  /**
   * createToken: header, payload and signature segments joined by dots. The
   * issue time is the caller's clock reading. None when the secret is empty,
   * because the MAC cannot be keyed.
   */
  function CreateToken(userId: string, email: string, name: string, role: string, sector: string, iat: string, env: Env): (r: Option<string>)
    requires ValidOrder(env.order)
    ensures r.None? <==> env.secret == ""
  {
    var header := Segment(ValueToJson(StringObject(Header, env.order)));
    var payload := Segment(ValueToJson(StringObject(Payload(userId, email, name, role, sector, iat), env.order)));
    match HmacSha256(header + "." + payload, env.secret, env.crypto)
    case None => None
    case Some(signature) => Some(header + "." + payload + "." + signature)
  }

  /** The text after the case-sensitive "Bearer " prefix of the Authorization header. */
  function BearerToken(authorization: Option<string>): (r: Option<string>)
    ensures r.Some? ==> authorization == Some("Bearer " + r.value)
  {
    match authorization
    case None => None
    case Some(a) =>
      if |a| >= 7 && a[..7] == "Bearer " then assert a == a[..7] + a[7..]; Some(a[7..]) else None
  }

  lemma BearerTokenOf(token: string)
    ensures BearerToken(Some("Bearer " + token)) == Some(token)
  {
    var a := "Bearer " + token;
    assert a[..7] == "Bearer " && a[7..] == token;
  }

  /**
   * authenticate: the claims of a token whose third segment is the MAC of the
   * first two; None for a missing or non-Bearer header, a token that does
   * not split into three parts, a wrong signature and any decoding failure.
   */
  function Authenticate(authorization: Option<string>, env: Env): (r: Option<map<string, string>>)
    ensures r.Some? ==> env.secret != ""
    ensures r.Some? ==> BearerToken(authorization).Some?
    ensures r.Some? ==> var parts := JavaSplit(BearerToken(authorization).value, '.');
                        |parts| == 3 && HmacSha256(parts[0] + "." + parts[1], env.secret, env.crypto) == Some(parts[2])
                        && r == SegmentClaims(parts[1])
  {
    match BearerToken(authorization)
    case None => None
    case Some(token) =>
      var parts := JavaSplit(token, '.');
      if |parts| != 3 then None
      else
        match HmacSha256(parts[0] + "." + parts[1], env.secret, env.crypto)
        case None => None
        case Some(expected) =>
          if parts[2] != expected then None else SegmentClaims(parts[1])
  }

  /**
   * Acceptance looks at nothing but the MAC: any first segment, with any
   * payload, signed under the secret, is accepted, and the payload's claims
   * are returned.
   */
  lemma AnyHeaderAccepted(header: string, payload: string, env: Env)
    requires '.' !in header && '.' !in payload && env.secret != ""
    ensures var signature := HmacSha256(header + "." + payload, env.secret, env.crypto).value;
            Authenticate(Some("Bearer " + (header + "." + payload + "." + signature)), env) == SegmentClaims(payload)
  {
    var signature := HmacSha256(header + "." + payload, env.secret, env.crypto).value;
    var token := header + "." + payload + "." + signature;
    BearerTokenOf(token);
    SplitThree(header, payload, signature, '.');
  }

  /** A token made by createToken splits into its three segments. */
  lemma TokenSegments(userId: string, email: string, name: string, role: string, sector: string, iat: string, env: Env)
    requires ValidOrder(env.order) && env.secret != ""
    ensures var t := CreateToken(userId, email, name, role, sector, iat, env).value;
            var parts := JavaSplit(t, '.');
            |parts| == 3 && t == parts[0] + "." + parts[1] + "." + parts[2]
            && HmacSha256(parts[0] + "." + parts[1], env.secret, env.crypto) == Some(parts[2])
  {
    var header := Segment(ValueToJson(StringObject(Header, env.order)));
    var payload := Segment(ValueToJson(StringObject(Payload(userId, email, name, role, sector, iat), env.order)));
    var signature := HmacSha256(header + "." + payload, env.secret, env.crypto).value;
    SplitThree(header, payload, signature, '.');
  }

  /**
   * A token from createToken is accepted under the same secret, and its
   * claims come back exactly, provided no claim holds a quote or a backslash.
   */
  lemma TokenRoundTrip(userId: string, email: string, name: string, role: string, sector: string, iat: string, env: Env)
    requires ValidOrder(env.order) && env.secret != ""
    requires Plain(userId) && Plain(email) && Plain(name) && Plain(role) && Plain(sector) && Plain(iat)
    ensures var t := CreateToken(userId, email, name, role, sector, iat, env);
            t.Some? && Authenticate(Some("Bearer " + t.value), env) == Some(Payload(userId, email, name, role, sector, iat))
  {
    var claims := Payload(userId, email, name, role, sector, iat);
    var json := ValueToJson(StringObject(claims, env.order));
    var header := Segment(ValueToJson(StringObject(Header, env.order)));
    var payload := Segment(json);
    var signature := HmacSha256(header + "." + payload, env.secret, env.crypto).value;
    assert CreateToken(userId, email, name, role, sector, iat, env) == Some(header + "." + payload + "." + signature);
    AnyHeaderAccepted(header, payload, env);
    SegmentRoundTrip(json);
    PayloadPlain(userId, email, name, role, sector, iat);
    StringObjectRoundTrip(claims, env.order);
  }

  /** A segment decodes to the JSON text it was made from. */
  lemma SegmentRoundTrip(json: string)
    ensures SegmentClaims(Segment(json)) == DecodeObject(Some(json))
  {
    Base64Url.DecodeEncode(Utf8.Encode(json));
    Utf8.DecodeEncode(json);
  }

  lemma PayloadPlain(userId: string, email: string, name: string, role: string, sector: string, iat: string)
    requires Plain(userId) && Plain(email) && Plain(name) && Plain(role) && Plain(sector) && Plain(iat)
    ensures PlainMap(Payload(userId, email, name, role, sector, iat))
  {
    var claims := Payload(userId, email, name, role, sector, iat);
    forall k | k in claims ensures Plain(k) && ':' !in k && Plain(claims[k]) {
      assert k in {"sub", "email", "name", "role", "sector", "iat"};
    }
  }

  /** A dot appended to a non-empty token changes nothing: String.split drops the empty last piece. */
  lemma TrailingDotIgnored(token: string, env: Env)
    requires token != []
    ensures Authenticate(Some("Bearer " + token + "."), env) == Authenticate(Some("Bearer " + token), env)
  {
    BearerTokenOf(token);
    BearerTokenOf(token + ".");
    assert "Bearer " + token + "." == "Bearer " + (token + ".");
    JavaSplitTrailing(token, '.');
  }
}

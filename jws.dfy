/** The account key as a JWK, its thumbprint, and the JWS envelope of every
    signed request (lines 92-117 and 162-187): a protected header that names
    the key by `jwk` on `newAccount` and by `kid` everywhere else (section
    6.2 of RFC 8555), and an empty payload for POST-as-GET (section 6.3). */
module Jws {
  import opened Wrappers
  import opened Strings
  import opened Messages
  import opened Encoding

  /** The operations the client borrows from its libraries and from
      `openssl`: the padded base64url encoder, UTF-8 encoding, `json.dumps`,
      SHA-256 and the RS256 signature made with the account key. */
  datatype Primitives = Primitives(
    b64: seq<byte> -> string,
    utf8: string -> seq<byte>,
    dumps: Json -> string,
    sha256: seq<byte> -> seq<byte>,
    sign: seq<byte> -> seq<byte>)

  /** The public account key: the modulus text `openssl rsa -noout -text`
      prints after `modulus:` and `00:`, and the decimal `publicExponent`
      (lines 169-174). */
  datatype KeyText = KeyText(modulus: string, exponent: nat)

  /** An RSA JWK (`kty` is always `RSA`): base64url `e` and `n`. */
  datatype Jwk = Jwk(e: string, n: string)

  /** `private_acme_signature`: `alg`, `jwk`, and `kid` once the account is
      known (lines 178-185, 206 and 209). */
  datatype Signature = Signature(alg: string, jwk: Jwk, kid: Option<string>)

  /** The protected header of one request, after the deep copy and edits of
      lines 99-108. */
  datatype Protected = Protected(alg: string, jwk: Option<Jwk>, kid: Option<string>, nonce: string, url: string)

  /** The `payload` argument: the empty string (POST-as-GET) or a JSON body. */
  datatype Payload = PostAsGet | Body(json: Json)

  /** The flattened JWS sent as the request body (lines 111-113). */
  datatype Jose = Jose(protected64: string, payload64: string, signature64: string)

  const Rs256 := "RS256"

  /** Lines 171-185: the account key as a JWK, or the error raised when no
      key was found in the `openssl` output or when its modulus does not
      unhexlify. */
  function AccountJwk(p: Primitives, key: Option<KeyText>): (r: Result<Jwk, Error>)
    ensures r.Failure? <==> key.None? || ModulusOctets(key.value.modulus).None?
    ensures key.None? ==> r == Failure(NoAccountKey)
    ensures key.Some? && r.Failure? ==> r.error == BadModulus
    ensures r.Success? ==> exists es, ns :: r.value == Jwk(Base64Url(p.b64, es), Base64Url(p.b64, ns))
                                            && BigEndian(es) == key.value.exponent
                                            && BigEndian(ns) == HexValue(RemoveSeparators(key.value.modulus))
  {
    if key.None? then Failure(NoAccountKey)
    else match ModulusOctets(key.value.modulus)
      case None => Failure(BadModulus)
      case Some(ns) =>
        var es := ExponentOctets(key.value.exponent);
        Success(Jwk(Base64Url(p.b64, es), Base64Url(p.b64, ns)))
  }

  /** Lines 186-187: the JWK thumbprint of section 3 of RFC 7638, base64url
      of the SHA-256 of the canonical JWK text. */
  function Thumbprint(p: Primitives, jwk: Jwk): (t: string)
    ensures t == [] || t[|t| - 1] != '='
  {
    Base64Url(p.b64, p.sha256(p.utf8(CanonicalJwk(jwk.e, jwk.n))))
  }

  /** The template of lines 178-185: no `kid` yet. */
  function InitialSignature(jwk: Jwk): (s: Signature)
    ensures s.alg == Rs256 && s.jwk == jwk && s.kid.None?
  {
    Signature(Rs256, jwk, None)
  }

  /** Lines 99-108: the template's copy with `nonce` and `url` set, the
      `kid` dropped on `newAccount` and the `jwk` dropped elsewhere. */
  function ProtectedHeader(s: Signature, nonce: string, url: string, newAccountUrl: string): (h: Protected)
    ensures h.alg == s.alg && h.nonce == nonce && h.url == url
    ensures url == newAccountUrl ==> h.jwk == Some(s.jwk) && h.kid.None?
    ensures url != newAccountUrl ==> h.jwk.None? && h.kid == s.kid
  {
    if url == newAccountUrl then Protected(s.alg, Some(s.jwk), None, nonce, url)
    else Protected(s.alg, None, s.kid, nonce, url)
  }

  /** Once the account URL is in the template, every header names the key in
      exactly one way: by `jwk` on `newAccount`, by that `kid` elsewhere. */
  lemma KeyNamedOnce(s: Signature, nonce: string, url: string, newAccountUrl: string)
    requires s.kid.Some?
    ensures var h := ProtectedHeader(s, nonce, url, newAccountUrl);
            (h.jwk.Some? != h.kid.Some?) && (h.jwk.Some? <==> url == newAccountUrl)
            && (h.kid.Some? ==> h.kid == s.kid)
  {
  }

  /** The header as the JSON object `json.dumps` serialises. */
  function ProtectedJson(h: Protected): (j: Json)
    ensures j.JObject? && "alg" in j.members && "nonce" in j.members && "url" in j.members
    ensures j.members["alg"] == JString(h.alg) && j.members["nonce"] == JString(h.nonce) && j.members["url"] == JString(h.url)
    ensures "jwk" in j.members <==> h.jwk.Some?
    ensures "kid" in j.members <==> h.kid.Some?
  {
    var base := map["alg" := JString(h.alg), "nonce" := JString(h.nonce), "url" := JString(h.url)];
    var withJwk := if h.jwk.Some? then base["jwk" := JwkJson(h.jwk.value)] else base;
    JObject(if h.kid.Some? then withJwk["kid" := JString(h.kid.value)] else withJwk)
  }

  function JwkJson(k: Jwk): Json {
    JObject(map["e" := JString(k.e), "kty" := JString("RSA"), "n" := JString(k.n)])
  }

  /** Lines 95-98: the encoded payload, empty for POST-as-GET. */
  function Payload64(p: Primitives, payload: Payload): (s: string)
    ensures payload.PostAsGet? ==> s == ""
    ensures s == [] || s[|s| - 1] != '='
  {
    match payload
    case PostAsGet => ""
    case Body(j) => Base64Url(p.b64, p.utf8(p.dumps(j)))
  }

  /** Lines 109-113: the signed envelope; the signature covers the encoded
      header and payload joined by a dot. */
  function Envelope(p: Primitives, h: Protected, payload: Payload): (j: Jose)
    ensures payload.PostAsGet? ==> j.payload64 == ""
    ensures j.signature64 == Base64Url(p.b64, p.sign(p.utf8(j.protected64 + "." + j.payload64)))
    ensures j.protected64 == Base64Url(p.b64, p.utf8(p.dumps(ProtectedJson(h))))
  {
    var protected64 := Base64Url(p.b64, p.utf8(p.dumps(ProtectedJson(h))));
    var payload64 := Payload64(p, payload);
    Jose(protected64, payload64, Base64Url(p.b64, p.sign(p.utf8(protected64 + "." + payload64))))
  }

  /** The base64url alphabet, `=` padding included. */
  predicate IsBase64UrlChar(c: char) {
    'A' <= c <= 'Z' || 'a' <= c <= 'z' || '0' <= c <= '9' || c == '-' || c == '_' || c == '='
  }

  ghost predicate EncodesBase64Url(p: Primitives) {
    forall data :: forall i :: 0 <= i < |p.b64(data)| ==> IsBase64UrlChar(p.b64(data)[i])
  }

  /** With an encoder that keeps to its alphabet, the signing input splits
      back at its one dot into exactly the encoded header and payload: the
      signature binds both and nothing else (section 5.1 of RFC 7515). */
  lemma SigningInputParts(p: Primitives, h: Protected, payload: Payload)
    requires EncodesBase64Url(p)
    ensures var j := Envelope(p, h, payload);
            Split(j.protected64 + "." + j.payload64, ".") == [j.protected64, j.payload64]
  {
    var j := Envelope(p, h, payload);
    var data := p.utf8(p.dumps(ProtectedJson(h)));
    assert j.protected64 == p.b64(data)[..|j.protected64|];
    assert '.' !in j.protected64 by {
      forall i | 0 <= i < |j.protected64| ensures j.protected64[i] != '.' {
        assert IsBase64UrlChar(p.b64(data)[i]);
      }
    }
    assert '.' !in j.payload64 by {
      if payload.Body? {
        var body := p.utf8(p.dumps(payload.json));
        assert j.payload64 == p.b64(body)[..|j.payload64|];
        forall i | 0 <= i < |j.payload64| ensures j.payload64[i] != '.' {
          assert IsBase64UrlChar(p.b64(body)[i]);
        }
      }
    }
    SplitCons(j.protected64, ".", j.payload64);
    SplitSingle(j.payload64, ".");
  }
}

/** Text and byte encodings the client computes itself: `_base64` (base64url
    without `=` padding, section 2 of RFC 7515), the hexadecimal handling that
    turns the account key's exponent and modulus into JWK octets, the
    canonical JWK text hashed for the thumbprint (section 3 of RFC 7638), and
    the key authorization and TXT record of a dns-01 challenge (sections 8.1
    and 8.4 of RFC 8555). The base64 alphabet mapping and SHA-256 themselves
    are left abstract. */
module Encoding {
  import opened Wrappers
  import opened Strings

  newtype byte = x: int | 0 <= x < 256

  // ---------------------------------------------------------------------
  // _base64

  /** `s.rstrip("=")`. */
  function StripPadding(s: string): (r: string)
    ensures |r| <= |s| && r == s[..|r|]
    ensures forall i :: |r| <= i < |s| ==> s[i] == '='
    ensures r == [] || r[|r| - 1] != '='
  {
    if s != [] && s[|s| - 1] == '=' then StripPadding(s[..|s| - 1]) else s
  }

  function Padding(k: nat): (r: string)
    ensures |r| == k && forall i :: 0 <= i < k ==> r[i] == '='
  {
    if k == 0 then "" else Padding(k - 1) + "="
  }

  /** Stripping removes exactly the padding an encoder appends to a body that
      does not itself end in `=`. */
  lemma {:induction false} StripPaddingRemovesPadding(body: string, k: nat)
    requires body == [] || body[|body| - 1] != '='
    ensures StripPadding(body + Padding(k)) == body
  {
    if k > 0 {
      assert (body + Padding(k))[..|body| + k - 1] == body + Padding(k - 1);
      StripPaddingRemovesPadding(body, k - 1);
    } else {
      assert body + Padding(0) == body;
    }
  }

  /** `_base64(data)`: the standard base64url encoding of `data`, given here
      as `encode`, with its trailing `=` characters removed. */
  function Base64Url(encode: seq<byte> -> string, data: seq<byte>): (r: string)
    ensures r == [] || r[|r| - 1] != '='
    ensures forall body, k: nat :: encode(data) == body + Padding(k) && (body == [] || body[|body| - 1] != '=') ==> r == body
  {
    var r := StripPadding(encode(data));
    forall body, k: nat | encode(data) == body + Padding(k) && (body == [] || body[|body| - 1] != '=')
      ensures r == body
    {
      StripPaddingRemovesPadding(body, k);
    }
    r
  }

  // ---------------------------------------------------------------------
  // Hexadecimal

  predicate IsHexDigit(c: char) {
    '0' <= c <= '9' || 'a' <= c <= 'f' || 'A' <= c <= 'F'
  }

  predicate AllHex(h: string) {
    forall i :: 0 <= i < |h| ==> IsHexDigit(h[i])
  }

  function DigitValue(c: char): (v: nat)
    requires IsHexDigit(c)
    ensures v < 16 && (v == 0 <==> c == '0')
  {
    if c <= '9' then c as int - '0' as int
    else if c <= 'F' then c as int - 'A' as int + 10
    else c as int - 'a' as int + 10
  }

  function LowerHexDigit(d: nat): (c: char)
    requires d < 16
    ensures IsHexDigit(c) && DigitValue(c) == d
  {
    if d < 10 then (d + '0' as int) as char else (d - 10 + 'a' as int) as char
  }

  /** The value of a hexadecimal numeral, most significant digit first. */
  function HexValue(h: string): nat
    requires AllHex(h)
  {
    if h == [] then 0 else HexValue(h[..|h| - 1]) * 16 + DigitValue(h[|h| - 1])
  }

  /** `"{0:x}".format(n)`: lower-case hexadecimal without leading zeros. */
  function Hex(n: nat): (r: string)
    ensures |r| >= 1 && AllHex(r)
    ensures r[0] == '0' ==> n == 0 && |r| == 1
    ensures HexValue(r) == n
  {
    if n < 16 then [LowerHexDigit(n)]
    else
      var r := Hex(n / 16) + [LowerHexDigit(n % 16)];
      assert r[..|r| - 1] == Hex(n / 16);
      r
  }

  /** A leading zero digit does not change a numeral's value. */
  lemma {:induction false} LeadingZero(h: string)
    requires AllHex(h)
    ensures AllHex("0" + h) && HexValue("0" + h) == HexValue(h)
  {
    if h != [] {
      assert ("0" + h)[..|h|] == "0" + h[..|h| - 1];
      LeadingZero(h[..|h| - 1]);
    }
  }

  /** Lines 175-176: a `0` is prepended to an odd-length numeral so that it
      can be read as whole octets. */
  function PadToEvenLength(h: string): (r: string)
    requires AllHex(h)
    ensures AllHex(r) && |r| % 2 == 0 && HexValue(r) == HexValue(h)
    ensures r == h || (|h| % 2 == 1 && r == "0" + h)
  {
    LeadingZero(h);
    if |h| % 2 == 1 then "0" + h else h
  }

  /** The octets of an even-length numeral, two digits each. */
  function Octets(h: string): (bs: seq<byte>)
    requires AllHex(h) && |h| % 2 == 0
    ensures |bs| == |h| / 2
  {
    if h == [] then []
    else
      var n := |h|;
      Octets(h[..n - 2]) + [(DigitValue(h[n - 2]) * 16 + DigitValue(h[n - 1])) as byte]
  }

  /** The unsigned big-endian value of an octet string. */
  function BigEndian(bs: seq<byte>): nat {
    if bs == [] then 0 else BigEndian(bs[..|bs| - 1]) * 256 + bs[|bs| - 1] as nat
  }

  lemma {:induction false} OctetsValue(h: string)
    requires AllHex(h) && |h| % 2 == 0
    ensures BigEndian(Octets(h)) == HexValue(h)
    decreases |h|
  {
    if h != [] {
      var n := |h|;
      var bs := Octets(h);
      OctetsValue(h[..n - 2]);
      assert bs[..|bs| - 1] == Octets(h[..n - 2]);
      assert h[..n - 1][..n - 2] == h[..n - 2];
      var d1, d2 := DigitValue(h[n - 2]), DigitValue(h[n - 1]);
      var v := HexValue(h[..n - 2]);
      assert HexValue(h) == (v * 16 + d1) * 16 + d2;
      TwoDigits(v, d1, d2);
      assert BigEndian(bs) == v * 256 + bs[|bs| - 1] as nat;
    }
  }

  lemma TwoDigits(v: int, d1: int, d2: int)
    ensures (v * 16 + d1) * 16 + d2 == v * 256 + (d1 * 16 + d2)
  {
  }

  lemma {:induction false} OctetsHead(h: string)
    requires AllHex(h) && |h| % 2 == 0 && |h| >= 2
    ensures Octets(h)[0] as int == DigitValue(h[0]) * 16 + DigitValue(h[1])
    decreases |h|
  {
    var n := |h|;
    if n > 2 {
      OctetsHead(h[..n - 2]);
    }
  }

  /** `binascii.unhexlify(h)`: None where Python raises `binascii.Error`
      (odd length or a non-hexadecimal character). */
  function Unhexlify(h: string): (r: Option<seq<byte>>)
    ensures r.Some? <==> |h| % 2 == 0 && AllHex(h)
    ensures r.Some? ==> |r.value| == |h| / 2 && BigEndian(r.value) == HexValue(h)
  {
    if |h| % 2 == 0 && AllHex(h) then
      OctetsValue(h);
      Some(Octets(h))
    else None
  }

  /** The JWK `e` octets of lines 175-176 and 181: the exponent as the
      shortest big-endian octet string (section 6.3.1.2 of RFC 7518). Padding
      to even length makes `unhexlify` always succeed here. */
  function ExponentOctets(e: nat): (bs: seq<byte>)
    ensures Unhexlify(PadToEvenLength(Hex(e))) == Some(bs)
    ensures |bs| >= 1 && BigEndian(bs) == e
    ensures e > 0 ==> bs[0] != 0
  {
    ExponentLeadingOctet(e);
    Unhexlify(PadToEvenLength(Hex(e))).value
  }

  /** The first octet of the padded exponent numeral is zero only for zero. */
  lemma ExponentLeadingOctet(e: nat)
    ensures var h := PadToEvenLength(Hex(e));
            |h| >= 2 && (e > 0 ==> Octets(h)[0] != 0)
  {
    var h := PadToEvenLength(Hex(e));
    OctetsHead(h);
    if e > 0 {
      if h == Hex(e) {
        assert DigitValue(h[0]) > 0;
      } else {
        assert h[1] == Hex(e)[0];
        assert DigitValue(h[1]) > 0;
      }
    }
  }

  /** What `\s` matches in a `str` pattern: the characters for which
      `str.isspace()` holds, ASCII and Unicode alike. */
  predicate IsPythonSpace(c: char) {
    var n := c as int;
    (9 <= n <= 13) || (28 <= n <= 32) || n == 0x85 || n == 0xA0 || n == 0x1680
    || (0x2000 <= n <= 0x200A) || n == 0x2028 || n == 0x2029 || n == 0x202F || n == 0x205F || n == 0x3000
  }

  /** The characters of `(\s|:)`. */
  predicate IsSeparator(c: char) {
    c == ':' || IsPythonSpace(c)
  }

  /** `re.sub(r"(\s|:)", "", s)`. */
  function RemoveSeparators(s: string): (r: string)
    ensures forall i :: 0 <= i < |r| ==> !IsSeparator(r[i])
    ensures forall i :: 0 <= i < |s| && !IsSeparator(s[i]) ==> s[i] in r
    ensures |r| <= |s|
  {
    if s == [] then ""
    else if IsSeparator(s[0]) then RemoveSeparators(s[1..])
    else
      var rest := RemoveSeparators(s[1..]);
      assert forall i :: 1 <= i < |s| ==> s[i] == s[1..][i - 1];
      [s[0]] + rest
  }

  /** The removal works character by character: it keeps exactly the
      characters that are not separators, and distributes over `+`. */
  lemma {:induction false} RemoveSeparatorsAppend(a: string, b: string)
    ensures RemoveSeparators(a + b) == RemoveSeparators(a) + RemoveSeparators(b)
    ensures |a| == 1 ==> RemoveSeparators(a) == (if IsSeparator(a[0]) then "" else a)
  {
    if a == [] {
      assert a + b == b;
    } else {
      assert (a + b)[0] == a[0] && (a + b)[1..] == a[1..] + b;
      RemoveSeparatorsAppend(a[1..], b);
      if |a| == 1 {
        assert a[1..] == [];
      }
    }
  }

  /** The JWK `n` octets of line 183: the modulus as `openssl rsa -text`
      prints it, colons and line breaks removed; None where `unhexlify`
      raises. */
  function ModulusOctets(printed: string): (r: Option<seq<byte>>)
    ensures r.Some? <==> |RemoveSeparators(printed)| % 2 == 0 && AllHex(RemoveSeparators(printed))
    ensures r.Some? ==> BigEndian(r.value) == HexValue(RemoveSeparators(printed))
  {
    Unhexlify(RemoveSeparators(printed))
  }

  // ---------------------------------------------------------------------
  // Thumbprint input, key authorization, TXT record

  /** Line 186: `json.dumps(jwk, sort_keys=True, separators=(",", ":"))` for
      an RSA key whose `e` and `n` are base64url texts (which need no JSON
      escaping): members in key order `e`, `kty`, `n`, no whitespace. */
  function CanonicalJwk(e: string, n: string): string {
    "{\"e\":\"" + e + "\",\"kty\":\"RSA\",\"n\":\"" + n + "\"}"
  }

  /** Different keys give different thumbprint inputs, so the thumbprint
      changes whenever the exponent or the modulus does (up to SHA-256
      collisions). */
  lemma CanonicalJwkInjective(e1: string, n1: string, e2: string, n2: string)
    requires '"' !in e1 && '"' !in e2
    requires CanonicalJwk(e1, n1) == CanonicalJwk(e2, n2)
    ensures e1 == e2 && n1 == n2
  {
    var s1, s2 := CanonicalJwk(e1, n1), CanonicalJwk(e2, n2);
    assert |e1| == |e2| by {
      // the first quote after the six-character head closes `e`
      assert forall i :: 0 <= i < |e1| ==> s1[6 + i] == e1[i];
      assert forall i :: 0 <= i < |e2| ==> s2[6 + i] == e2[i];
      assert s1[6 + |e1|] == '"' && s2[6 + |e2|] == '"';
    }
    assert e1 == s1[6..6 + |e1|] == s2[6..6 + |e2|] == e2;
    var k := 6 + |e1| + |"\",\"kty\":\"RSA\",\"n\":\""|;
    assert n1 == s1[k..|s1| - 2] == s2[k..|s2| - 2] == n2;
  }

  /** Line 275: the key authorization `token || '.' || thumbprint`. */
  function KeyAuthorization(token: string, thumbprint: string): string {
    token + "." + thumbprint
  }

  /** Section 8.1 of RFC 8555: a base64url token and thumbprint hold no `.`,
      so the key authorization splits back into exactly the two of them. */
  lemma KeyAuthorizationParts(token: string, thumbprint: string)
    requires '.' !in token && '.' !in thumbprint
    ensures Split(KeyAuthorization(token, thumbprint), ".") == [token, thumbprint]
  {
    SplitCons(token, ".", thumbprint);
    SplitSingle(thumbprint, ".");
  }

  /** Line 277: the record name `_acme-challenge.<domain>.`. */
  function ChallengeRecordName(domain: string): (name: string)
    ensures |name| == |domain| + 17 && StartsWith(name, "_acme-challenge.") && name[|name| - 1] == '.'
    ensures name[16..|name| - 1] == domain
  {
    "_acme-challenge." + domain + "."
  }

  /** Lines 289 and 310: the TXT value, the digest between double quotes, as
      dnspython writes it back with `to_text()`. */
  function TxtValue(digest: string): (v: string)
    ensures |v| == |digest| + 2 && v[0] == '"' && v[|v| - 1] == '"' && v[1..|v| - 1] == digest
  {
    "\"" + digest + "\""
  }
}

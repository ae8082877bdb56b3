/** An idealised model of the compact token format the `jsonwebtoken` library produces
    (`utils/jwt.ts`).  A token is a string: the length-prefixed claims payload followed by
    a signature that depends on the signing secret and the payload.  The real library
    uses base64url JSON and HMAC-SHA256; the model keeps only what the auth core relies
    on: decoding inverts encoding, and a signature made with one secret does not check
    under another. */
module TokenCodec {
  import opened Wrappers

  /** The claims every token of this system carries: subject (user id), email, purpose
      tag (`type`), issue time and expiry, both in whole seconds since the epoch. */
  datatype Claims = Claims(sub: nat, email: string, kind: string, iat: nat, exp: nat)

  predicate IsDigit(c: char) {
    '0' <= c <= '9'
  }

  predicate AllDigits(s: string) {
    forall i :: 0 <= i < |s| ==> IsDigit(s[i])
  }

  function DigitChar(d: nat): (c: char)
    requires d < 10
    ensures IsDigit(c) && c as int - '0' as int == d
  {
    ('0' as int + d) as char
  }

  /** Decimal numeral of `n`, most significant digit first. */
  function Numeral(n: nat): (s: string)
    ensures |s| > 0 && AllDigits(s)
  {
    if n < 10 then [DigitChar(n)] else Numeral(n / 10) + [DigitChar(n % 10)]
  }

  /** Value of a decimal numeral. */
  function NumeralValue(s: string): nat
    requires AllDigits(s)
  {
    if s == [] then 0
    else NumeralValue(s[..|s| - 1]) * 10 + (s[|s| - 1] as int - '0' as int)
  }

  lemma {:induction false} NumeralRoundTrip(n: nat)
    ensures NumeralValue(Numeral(n)) == n
  {
    if n >= 10 {
      var s := Numeral(n);
      assert s[..|s| - 1] == Numeral(n / 10);
      NumeralRoundTrip(n / 10);
    }
  }

  /** Length of the run of digits at the front of `s`. */
  function DigitRun(s: string): (k: nat)
    ensures k <= |s| && AllDigits(s[..k])
    ensures k < |s| ==> !IsDigit(s[k])
  {
    if s == [] || !IsDigit(s[0]) then 0
    else
      var k := 1 + DigitRun(s[1..]);
      assert s[..k] == [s[0]] + s[1..][..k - 1];
      k
  }

  lemma {:induction false} DigitRunOfDigits(d: string, rest: string)
    requires AllDigits(d)
    requires rest != [] && !IsDigit(rest[0])
    ensures DigitRun(d + rest) == |d|
  {
    if d != [] {
      assert (d + rest)[1..] == d[1..] + rest;
      DigitRunOfDigits(d[1..], rest);
    }
  }

  /** A length-prefixed field: decimal length, a colon, then the text itself. */
  function Field(x: string): string {
    Numeral(|x|) + [':'] + x
  }

  /** Reads one field from the front of `s`, returning its text and what follows. */
  function ParseField(s: string): Option<(string, string)> {
    var k := DigitRun(s);
    if k == 0 || k == |s| || s[k] != ':' then None
    else
      var n := NumeralValue(s[..k]);
      if k + 1 + n <= |s| then Some((s[k + 1..k + 1 + n], s[k + 1 + n..])) else None
  }

  lemma FieldRoundTrip(x: string, rest: string)
    ensures ParseField(Field(x) + rest) == Some((x, rest))
  {
    var d := Numeral(|x|);
    var s := Field(x) + rest;
    assert s == d + ([':'] + x + rest);
    DigitRunOfDigits(d, [':'] + x + rest);
    assert s[..|d|] == d;
    NumeralRoundTrip(|x|);
    assert s[|d| + 1..|d| + 1 + |x|] == x;
    assert s[|d| + 1 + |x|..] == rest;
  }

  function ParseNumber(text: string): Option<nat> {
    if text != [] && AllDigits(text) then Some(NumeralValue(text)) else None
  }

  /** The payload: the five claims as consecutive fields. */
  function EncodeClaims(c: Claims): string {
    Field(Numeral(c.sub)) + (Field(c.email) + (Field(c.kind) + (Field(Numeral(c.iat)) + Field(Numeral(c.exp)))))
  }

  function DecodeClaims(p: string): Option<Claims> {
    var f1 :- ParseField(p);
    var f2 :- ParseField(f1.1);
    var f3 :- ParseField(f2.1);
    var f4 :- ParseField(f3.1);
    var f5 :- ParseField(f4.1);
    var sub :- ParseNumber(f1.0);
    var iat :- ParseNumber(f4.0);
    var exp :- ParseNumber(f5.0);
    if f5.1 == [] then Some(Claims(sub, f2.0, f3.0, iat, exp)) else None
  }

  lemma ClaimsRoundTrip(c: Claims)
    ensures DecodeClaims(EncodeClaims(c)) == Some(c)
  {
    var e := Field(c.email) + (Field(c.kind) + (Field(Numeral(c.iat)) + Field(Numeral(c.exp))));
    FieldRoundTrip(Numeral(c.sub), e);
    var k := Field(c.kind) + (Field(Numeral(c.iat)) + Field(Numeral(c.exp)));
    FieldRoundTrip(c.email, k);
    var i := Field(Numeral(c.iat)) + Field(Numeral(c.exp));
    FieldRoundTrip(c.kind, i);
    FieldRoundTrip(Numeral(c.iat), Field(Numeral(c.exp)));
    assert Field(Numeral(c.exp)) == Field(Numeral(c.exp)) + [];
    FieldRoundTrip(Numeral(c.exp), []);
    NumeralRoundTrip(c.sub);
    NumeralRoundTrip(c.iat);
    NumeralRoundTrip(c.exp);
  }

  /** Stand-in for the HMAC over the payload: a deterministic function of secret and
      payload that differs for different secrets. */
  function Mac(secret: string, payload: string): string {
    Field(secret) + Field(payload)
  }

  lemma MacSeparatesSecrets(s1: string, s2: string, payload: string)
    requires s1 != s2
    ensures Mac(s1, payload) != Mac(s2, payload)
  {
    FieldRoundTrip(s1, Field(payload));
    FieldRoundTrip(s2, Field(payload));
  }

  /** Produces the compact token for `c` signed with `secret`. */
  function Seal(c: Claims, secret: string): string {
    Field(EncodeClaims(c)) + Mac(secret, EncodeClaims(c))
  }

  /** Checks the signature of `token` against `secret` and decodes its claims
      (no expiry check: that belongs to verification, module Jwt). */
  function Open(token: string, secret: string): Option<Claims> {
    var parts :- ParseField(token);
    if parts.1 == Mac(secret, parts.0) then DecodeClaims(parts.0) else None
  }

  /** Round trip: opening a token with the secret it was sealed with gives back its claims. */
  lemma OpenSeal(c: Claims, secret: string)
    ensures Open(Seal(c, secret), secret) == Some(c)
  {
    FieldRoundTrip(EncodeClaims(c), Mac(secret, EncodeClaims(c)));
    ClaimsRoundTrip(c);
  }

  /** A token sealed with one secret does not open under another. */
  lemma OpenOtherSecret(c: Claims, secret: string, other: string)
    requires secret != other
    ensures Open(Seal(c, secret), other) == None
  {
    FieldRoundTrip(EncodeClaims(c), Mac(secret, EncodeClaims(c)));
    MacSeparatesSecrets(secret, other, EncodeClaims(c));
  }

  /** A token string determines its claims, whatever secrets the two signers used. */
  lemma SealDeterminesClaims(c1: Claims, s1: string, c2: Claims, s2: string)
    requires Seal(c1, s1) == Seal(c2, s2)
    ensures c1 == c2
  {
    FieldRoundTrip(EncodeClaims(c1), Mac(s1, EncodeClaims(c1)));
    FieldRoundTrip(EncodeClaims(c2), Mac(s2, EncodeClaims(c2)));
    ClaimsRoundTrip(c1);
    ClaimsRoundTrip(c2);
  }

  /** Tokens are deterministic in their claims: the same token means the same claims. */
  lemma SealInjective(c1: Claims, c2: Claims, secret: string)
    ensures Seal(c1, secret) == Seal(c2, secret) <==> c1 == c2
  {
    OpenSeal(c1, secret);
    OpenSeal(c2, secret);
  }
}

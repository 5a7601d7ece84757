/**
 * The signed, expiring token that `JwtService.signAsync` issues and
 * `verifyAsync` checks. The token text is a body holding the claims
 * (`sub`, `iat`, `exp`, `username`) followed by '.' and a signature; the
 * signature function `mac(secret, body)` stands for HMAC and is a parameter
 * of the model. Verification checks the signature first and then the expiry,
 * the way `jsonwebtoken` does.
 */
module JwtCodec {
  import opened Wrappers
  import opened Text

  /** `JwtPayload`. */
  datatype Payload = Payload(sub: nat, username: string)

  datatype VerifyError = Malformed | InvalidSignature | Expired

  /** What `verifyAsync` resolves to: the signed payload together with the
      `iat` and `exp` claims that signing added to it. */
  datatype Decoded = Decoded(payload: Payload, iat: nat, exp: nat)

  datatype Verified = Verified(decoded: Decoded) | Rejected(reason: VerifyError)

  /** The claims read from a token, with the texts the signature covers. */
  datatype Claims = Claims(sub: nat, iat: nat, exp: nat, username: string, body: string, signature: string)

  /** Numbers in decimal, each followed by '.'. */
  function Rendered(ns: seq<nat>): string
  {
    if |ns| == 0 then "" else NatToString(ns[0]) + "." + Rendered(ns[1..])
  }

  /** The body of a token: `sub`, `iat` and `exp` in decimal, then the user
      name prefixed by its length. */
  function Body(p: Payload, iat: nat, exp: nat): string
  {
    Rendered([p.sub, iat, exp, |p.username|]) + p.username
  }

  /** `signAsync(payload, {secret, expiresIn})` at time `iat` (seconds): a
      token whose claims read back as the payload, `iat` and `iat + expiresIn`,
      signed by `mac` under the secret. */
  function Sign(p: Payload, secret: string, iat: nat, expiresIn: nat, mac: (string, string) -> string): (t: string)
    ensures var c := Decode(t);
      c.Some? && c.value.sub == p.sub && c.value.username == p.username &&
      c.value.iat == iat && c.value.exp == iat + expiresIn &&
      c.value.body == Body(p, iat, iat + expiresIn) && c.value.signature == mac(secret, c.value.body)
  {
    SignedClaims(p, Body(p, iat, iat + expiresIn), iat, iat + expiresIn, mac(secret, Body(p, iat, iat + expiresIn)));
    Body(p, iat, iat + expiresIn) + "." + mac(secret, Body(p, iat, iat + expiresIn))
  }

  /** The text before and after the first `c`. */
  function CutAt(s: string, c: char): (r: Option<(string, string)>)
    ensures r.Some? <==> c in s
    ensures r.Some? ==> s == r.value.0 + [c] + r.value.1 && c !in r.value.0
  {
    if c in s then
      var i := IndexOf(s, c);
      assert s == s[..i] + [c] + s[i + 1..];
      Some((s[..i], s[i + 1..]))
    else None
  }

  /** A decimal field ended by '.': its value, its text and what follows. */
  function NumField(s: string): (r: Option<(nat, string, string)>)
    ensures r.Some? ==> s == r.value.1 + "." + r.value.2
  {
    match CutAt(s, '.')
    case None => None
    case Some((digits, rest)) =>
      if digits != "" && AllDigits(digits) then Some((DigitsValue(digits), digits, rest)) else None
  }

  /** `n` decimal fields: their values, their text and what follows. */
  function NumFields(s: string, n: nat): (r: Option<(seq<nat>, string, string)>)
    ensures r.Some? ==> |r.value.0| == n && s == r.value.1 + r.value.2
  {
    if n == 0 then Some(([], "", s))
    else
      match NumField(s)
      case None => None
      case Some((v, digits, rest)) =>
        match NumFields(rest, n - 1)
        case None => None
        case Some((vs, text, tail)) =>
          assert s == digits + "." + (text + tail);
          assert digits + "." + (text + tail) == (digits + "." + text) + tail;
          Some(([v] + vs, digits + "." + text, tail))
  }

  /** Reads the claims of a token; `None` for text that is not a token. */
  function Decode(token: string): (r: Option<Claims>)
    ensures r.Some? ==> token == r.value.body + "." + r.value.signature
  {
    match NumFields(token, 4)
    case None => None
    case Some((vs, head, rest)) =>
      var len := vs[3];
      if len < |rest| && rest[len] == '.' then
        var name := rest[..len];
        assert rest == name + "." + rest[len + 1..];
        Some(Claims(vs[0], vs[1], vs[2], name, head + name, rest[len + 1..]))
      else None
  }

  /** `verifyAsync(token, {secret})` at time `now` (seconds): a token is
      accepted exactly when it reads as claims, ends in the signature of the
      rest under the secret, and has not reached its expiry; it then yields
      its claims. A bad signature is reported before an expiry. */
  function Verify(token: string, secret: string, now: nat, mac: (string, string) -> string): (r: Verified)
    ensures r.Verified? <==>
      Decode(token).Some? && token == Decode(token).value.body + "." + mac(secret, Decode(token).value.body) &&
      now < Decode(token).value.exp
    ensures r.Verified? ==> var c := Decode(token).value;
      r.decoded == Decoded(Payload(c.sub, c.username), c.iat, c.exp)
    ensures r == Rejected(Malformed) <==> Decode(token).None?
    ensures r == Rejected(Expired) ==> Decode(token).value.signature == mac(secret, Decode(token).value.body)
  {
    match Decode(token)
    case None => Rejected(Malformed)
    case Some(c) =>
      if mac(secret, c.body) != c.signature then
        assert token[|c.body| + 1..] == c.signature;
        assert (c.body + "." + mac(secret, c.body))[|c.body| + 1..] == mac(secret, c.body);
        Rejected(InvalidSignature)
      else if now >= c.exp then Rejected(Expired)
      else Verified(Decoded(Payload(c.sub, c.username), c.iat, c.exp))
  }

  // Properties.

  lemma DigitsHaveNoDot(s: string)
    requires AllDigits(s)
    ensures '.' !in s
  {
  }

  /** A rendered number followed by '.' reads back as that number. */
  lemma NumFieldOfRendered(n: nat, rest: string)
    ensures NumField(NatToString(n) + "." + rest) == Some((n, NatToString(n), rest))
  {
    var d := NatToString(n);
    DigitsHaveNoDot(d);
    IndexOfConcat(d, '.', rest);
    assert (d + "." + rest)[..|d|] == d;
    assert (d + "." + rest)[|d| + 1..] == rest;
    NatToStringRoundTrip(n);
  }

  /** Rendered numbers read back as those numbers. */
  lemma {:induction false} NumFieldsOfRendered(ns: seq<nat>, rest: string)
    ensures NumFields(Rendered(ns) + rest, |ns|) == Some((ns, Rendered(ns), rest))
    decreases |ns|
  {
    if |ns| > 0 {
      var d, tail := NatToString(ns[0]), Rendered(ns[1..]) + rest;
      assert Rendered(ns) == d + "." + Rendered(ns[1..]);
      Regroup(d, ".", Rendered(ns[1..]), rest);
      NumFieldOfRendered(ns[0], tail);
      NumFieldsOfRendered(ns[1..], rest);
      NumFieldsStep(Rendered(ns) + rest, |ns|, ns[0], d, tail, ns[1..], Rendered(ns[1..]), rest);
      assert [ns[0]] + ns[1..] == ns;
    } else {
      assert Rendered(ns) + rest == rest;
    }
  }

  lemma Regroup(a: string, b: string, c: string, d: string)
    ensures a + b + c + d == a + b + (c + d)
  {
  }

  /** One more field read in front of `n - 1` others. */
  lemma NumFieldsStep(s: string, n: nat, v: nat, digits: string, rest: string,
                      vs: seq<nat>, text: string, tail: string)
    requires n > 0 && NumField(s) == Some((v, digits, rest)) && NumFields(rest, n - 1) == Some((vs, text, tail))
    ensures NumFields(s, n) == Some(([v] + vs, digits + "." + text, tail))
  {
  }

  /** The claims of a signed token are the ones it was signed with. */
  lemma DecodeSigned(p: Payload, iat: nat, exp: nat, signature: string)
    ensures Decode(Body(p, iat, exp) + "." + signature) ==
      Some(Claims(p.sub, iat, exp, p.username, Body(p, iat, exp), signature))
  {
    var name := p.username;
    var ns: seq<nat> := [p.sub, iat, exp, |name|];
    var rest := name + "." + signature;
    assert Body(p, iat, exp) + "." + signature == Rendered(ns) + rest;
    NumFieldsOfRendered(ns, rest);
    assert rest[..|name|] == name && rest[|name|] == '.' && rest[|name| + 1..] == signature;
  }

  /** The claims of a signed body, field by field. */
  lemma SignedClaims(p: Payload, body: string, iat: nat, exp: nat, signature: string)
    requires body == Body(p, iat, exp)
    ensures var c := Decode(body + "." + signature);
      c.Some? && c.value.sub == p.sub && c.value.username == p.username &&
      c.value.iat == iat && c.value.exp == exp && c.value.body == body && c.value.signature == signature
  {
    DecodeSigned(p, iat, exp, signature);
  }

  /** `verify(sign(p)) = p` while the token is unexpired, with the signing
      time as `iat` and the end of the lifetime as `exp`. */
  lemma SignThenVerify(p: Payload, secret: string, iat: nat, expiresIn: nat, now: nat, mac: (string, string) -> string)
    requires now < iat + expiresIn
    ensures Verify(Sign(p, secret, iat, expiresIn, mac), secret, now, mac) == Verified(Decoded(p, iat, iat + expiresIn))
  {
    var c := Decode(Sign(p, secret, iat, expiresIn, mac)).value;
    assert c.signature == mac(secret, c.body) && c.body == Body(p, iat, iat + expiresIn);
  }

  /** From `iat + expiresIn` on, the same token is rejected as expired. */
  lemma SignedTokenExpires(p: Payload, secret: string, iat: nat, expiresIn: nat, now: nat, mac: (string, string) -> string)
    requires now >= iat + expiresIn
    ensures Verify(Sign(p, secret, iat, expiresIn, mac), secret, now, mac) == Rejected(Expired)
  {
    var c := Decode(Sign(p, secret, iat, expiresIn, mac)).value;
    assert c.signature == mac(secret, c.body) && c.body == Body(p, iat, iat + expiresIn);
  }

  /** A token signed under another secret is rejected, whenever the two
      secrets sign its body differently. */
  lemma OtherSecretRejected(p: Payload, secret: string, other: string, iat: nat, expiresIn: nat, now: nat,
                            mac: (string, string) -> string)
    requires var body := Body(p, iat, iat + expiresIn); mac(other, body) != mac(secret, body)
    ensures Verify(Sign(p, other, iat, expiresIn, mac), secret, now, mac) == Rejected(InvalidSignature)
  {
    var c := Decode(Sign(p, other, iat, expiresIn, mac)).value;
    assert c.signature == mac(other, c.body) && c.body == Body(p, iat, iat + expiresIn);
  }
}

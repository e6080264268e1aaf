/**
 * jsonwebtoken's `sign` and `verify` (JSON Web Token, RFC 7519), as an
 * idealised codec. A token is six '.'-separated fields: id, username, role,
 * `iat`, `exp` and a signature over the first five. `exp` is `iat` plus the
 * `expiresIn` of the call (section 4.1.4 of RFC 7519: the token must not be
 * accepted at or after `exp`). Times are in seconds.
 */
module Jwt {
  import opened Wrappers
  import opened Text
  import opened Schema

  /** `expiresIn: '1h'` and `expiresIn: '1d'`, in seconds. */
  const OneHour: int := 3600
  const OneDay: int := 86400

  /** What a handler signs: `{id, username}` and, in one variant, `role`. */
  datatype Claims = Claims(id: int, username: string, role: Option<Role>)

  /** The decoded token, `req.user`: the claims plus `iat` and `exp`. */
  datatype Payload = Payload(claims: Claims, iat: int, exp: int)

  /** The error `jwt.verify` hands to its callback. */
  datatype VerifyError = Malformed | BadSignature | Expired

  datatype Verified = Valid(payload: Payload) | Invalid(error: VerifyError)

  function EncodeRole(role: Option<Role>): string {
    match role
    case None => ""
    case Some(USER) => "USER"
    case Some(ADMIN) => "ADMIN"
  }

  function DecodeRole(s: string): Option<Option<Role>> {
    if s == "" then Some(None)
    else if s == "USER" then Some(Some(USER))
    else if s == "ADMIN" then Some(Some(ADMIN))
    else None
  }

  /** The five payload fields of a token. */
  function PayloadFields(p: Payload): (fields: seq<string>)
    ensures |fields| == 5
    ensures forall i :: 0 <= i < 5 ==> '.' !in fields[i] && ' ' !in fields[i]
  {
    [IntToString(p.claims.id), Escape(p.claims.username), EncodeRole(p.claims.role),
     IntToString(p.iat), IntToString(p.exp)]
  }

  function DecodePayload(fields: seq<string>): (p: Option<Payload>)
    requires |fields| == 5
  {
    var id := ParseDecimal(fields[0]);
    var username := Unescape(fields[1]);
    var role := DecodeRole(fields[2]);
    var iat := ParseDecimal(fields[3]);
    var exp := ParseDecimal(fields[4]);
    if id.Some? && username.Some? && role.Some? && iat.Some? && exp.Some? then
      Some(Payload(Claims(id.value, username.value, role.value), iat.value, exp.value))
    else None
  }

  lemma DecodePayloadFields(p: Payload)
    ensures DecodePayload(PayloadFields(p)) == Some(p)
  {
    var fields := PayloadFields(p);
    ParseDecimalIntToString(p.claims.id);
    assert ParseDecimal(fields[0]) == Some(p.claims.id);
    UnescapeEscape(p.claims.username);
    assert Unescape(fields[1]) == Some(p.claims.username);
    assert DecodeRole(fields[2]) == Some(p.claims.role);
    ParseDecimalIntToString(p.iat);
    assert ParseDecimal(fields[3]) == Some(p.iat);
    ParseDecimalIntToString(p.exp);
    assert ParseDecimal(fields[4]) == Some(p.exp);
  }

  /** A 64-bit polynomial digest; it stands in for HMAC-SHA256. */
  function Digest64(s: string): nat
    decreases |s|
  {
    if |s| == 0 then 14695981039346656037
    else (Digest64(s[..|s| - 1]) * 1099511628211 + s[|s| - 1] as int) % 0x1_0000_0000_0000_0000
  }

  /** The signature over `message` under the server's secret. */
  function Mac(secret: string, message: string): (sig: string)
    ensures |sig| >= 1 && AllDigits(sig)
  {
    NatToDecimal(Digest64(secret + "." + message))
  }

  /** `jwt.sign(claims, secret, { expiresIn })` at time `now`. */
  function Sign(claims: Claims, secret: string, now: int, expiresIn: int): (token: string)
    ensures |token| >= 1 && ' ' !in token
  {
    var fields := PayloadFields(Payload(claims, now, now + expiresIn));
    var all := fields + [Mac(secret, Join(fields, '.'))];
    assert forall i :: 0 <= i < |all| ==> ' ' !in all[i] by {
      forall i | 0 <= i < |all| ensures ' ' !in all[i] {
        if i == 5 {
          assert forall k :: 0 <= k < |all[5]| ==> IsDigit(all[5][k]);
        }
      }
    }
    JoinAvoids(all, '.', ' ');
    Join(all, '.')
  }

  lemma {:induction false} JoinAvoids(fields: seq<string>, sep: char, c: char)
    requires c != sep
    requires forall i :: 0 <= i < |fields| ==> c !in fields[i]
    ensures c !in Join(fields, sep)
    ensures |fields| >= 2 ==> |Join(fields, sep)| >= 1
    decreases |fields|
  {
    if |fields| >= 2 {
      JoinAvoids(fields[1..], sep, c);
    }
  }

  /**
   * `jwt.verify(token, secret)` at time `now`: a token that does not decode is
   * malformed, then the signature is checked, then the expiry.
   */
  function Verify(token: string, secret: string, now: int): (r: Verified)
    ensures r.Valid? ==> now < r.payload.exp
  {
    var parts := Split(token, '.');
    if |parts| != 6 then Invalid(Malformed)
    else
      match DecodePayload(parts[..5])
      case None => Invalid(Malformed)
      case Some(p) =>
        if parts[5] != Mac(secret, Join(parts[..5], '.')) then Invalid(BadSignature)
        else if now >= p.exp then Invalid(Expired)
        else Valid(p)
  }

  /** The fields of a signed token, read back. */
  lemma SplitSigned(claims: Claims, secret: string, iat: int, expiresIn: int)
    ensures var fields := PayloadFields(Payload(claims, iat, iat + expiresIn));
            Split(Sign(claims, secret, iat, expiresIn), '.') == fields + [Mac(secret, Join(fields, '.'))]
  {
    var fields := PayloadFields(Payload(claims, iat, iat + expiresIn));
    var all := fields + [Mac(secret, Join(fields, '.'))];
    assert '.' !in all[5] by {
      assert forall k :: 0 <= k < |all[5]| ==> IsDigit(all[5][k]);
    }
    SplitJoin(all, '.');
  }

  /** Token round trip: before `exp`, verifying a signed token gives back exactly what was signed. */
  lemma VerifySign(claims: Claims, secret: string, iat: int, expiresIn: int, now: int)
    requires now < iat + expiresIn
    ensures Verify(Sign(claims, secret, iat, expiresIn), secret, now) == Valid(Payload(claims, iat, iat + expiresIn))
  {
    var p := Payload(claims, iat, iat + expiresIn);
    SplitSigned(claims, secret, iat, expiresIn);
    var parts := Split(Sign(claims, secret, iat, expiresIn), '.');
    assert parts[..5] == PayloadFields(p);
    DecodePayloadFields(p);
  }

  /** Expiry: from `exp` on, the same token is refused as expired. */
  lemma VerifyExpired(claims: Claims, secret: string, iat: int, expiresIn: int, now: int)
    requires now >= iat + expiresIn
    ensures Verify(Sign(claims, secret, iat, expiresIn), secret, now) == Invalid(Expired)
  {
    var p := Payload(claims, iat, iat + expiresIn);
    SplitSigned(claims, secret, iat, expiresIn);
    var parts := Split(Sign(claims, secret, iat, expiresIn), '.');
    assert parts[..5] == PayloadFields(p);
    DecodePayloadFields(p);
  }

  /** A well-formed payload under a signature that does not match is refused, whatever the clock says. */
  lemma VerifyForged(p: Payload, secret: string, sig: string, now: int)
    requires '.' !in sig && sig != Mac(secret, Join(PayloadFields(p), '.'))
    ensures Verify(Join(PayloadFields(p) + [sig], '.'), secret, now) == Invalid(BadSignature)
  {
    var all := PayloadFields(p) + [sig];
    SplitJoin(all, '.');
    assert all[..5] == PayloadFields(p);
    DecodePayloadFields(p);
  }

  /** Text with no '.' at all is not a token. */
  lemma VerifyNoDots(token: string, secret: string, now: int)
    requires '.' !in token
    ensures Verify(token, secret, now) == Invalid(Malformed)
  {
    SplitWithoutSep(token, '.');
  }
}

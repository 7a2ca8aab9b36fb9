/**
 * Bearer-header parsing and the claim check applied to a decoded JWT. Signature and
 * expiry checking belong to the JWT library, which is a parameter here.
 */
module Jwt {
  import opened Wrappers
  import opened JsText
  import AdsConfig

  datatype JwtPayload = JwtPayload(
    sub: Option<string>, email: Option<string>, iss: Option<string>,
    iat: Option<real>, exp: Option<real>, role: Option<string>)

  /**
   * `jwt.verify(token, secret)`: the decoded payload, or `None` where the library throws
   * (bad signature, expired, malformed).
   */
  type Verifier = (string, string) -> Option<JwtPayload>

  /** `process.env.JWT_SECRET || ''`. */
  function VerificationSecret(env: AdsConfig.Env): string {
    AdsConfig.EnvOr(env, "JWT_SECRET", "")
  }

  /** JavaScript truthiness of an optional number: present and not 0. */
  predicate NonZero(x: Option<real>) {
    x.Some? && x.value != 0.0
  }

  /** `sub`, `iss`, `iat` and `exp` are all present and truthy. */
  predicate HasRequiredClaims(p: JwtPayload) {
    Truthy(p.sub) && Truthy(p.iss) && NonZero(p.iat) && NonZero(p.exp)
  }

  /**
   * `verifyToken`: the payload the library decodes, provided it carries every required
   * claim; `None` when the library rejects the token or a claim is missing.
   */
  function VerifyToken(verify: Verifier, secret: string, token: string): (r: Option<JwtPayload>)
    ensures r.Some? <==> verify(token, secret).Some? && HasRequiredClaims(verify(token, secret).value)
    ensures r.Some? ==> r == verify(token, secret)
  {
    match verify(token, secret)
    case None => None
    case Some(p) => if HasRequiredClaims(p) then Some(p) else None
  }

  /**
   * `extractToken`: a header that is absent or empty gives `None`; otherwise it must split
   * on ' ' into exactly two parts, the first `Bearer`, and the second is the token. So an
   * accepted header is `"Bearer " + token` with a space-free token.
   */
  function ExtractToken(authHeader: Option<string>): (r: Option<string>)
    ensures !Truthy(authHeader) ==> r.None?
    ensures Truthy(authHeader) ==>
      var parts := Split(authHeader.value, ' ');
      (r.Some? <==> |parts| == 2 && parts[0] == "Bearer") && (r.Some? ==> r.value == parts[1])
    ensures r.Some? ==> authHeader == Some("Bearer " + r.value) && ' ' !in r.value
  {
    if !Truthy(authHeader) then None
    else
      var parts := Split(authHeader.value, ' ');
      if |parts| != 2 || parts[0] != "Bearer" then None
      else
        assert authHeader.value == "Bearer " + parts[1] by {
          assert parts[1..] == [parts[1]];
          assert Join(parts, ' ') == parts[0] + [' '] + parts[1];
        }
        Some(parts[1])
  }

  /** Round trip: the header `"Bearer " + t` yields `t` for any space-free `t`. */
  lemma ExtractTokenOfBearer(t: string)
    requires ' ' !in t
    ensures ExtractToken(Some("Bearer " + t)) == Some(t)
  {
    assert "Bearer " + t == "Bearer" + [' '] + t;
    assert ' ' !in "Bearer";
    SplitJoin(["Bearer", t], ' ');
    assert Join(["Bearer", t], ' ') == "Bearer" + [' '] + Join([t], ' ');
  }
}

/**
 * Tokens issued by the JWT library (AuthJWT). Signing, verification and expiry
 * are not modelled: a token is the record of the parameters it was created
 * from, tagged with a serial number that makes every created token fresh.
 */
module Tokens {
  import opened Common

  /** The two lifetimes of the configuration: ACCESS_TOKEN_EXPIRES_IN minutes and
      REFRESH_TOKEN_EXPIRES_IN days. Their values and the clock are not modelled. */
  datatype Lifetime = AccessLifetime | RefreshLifetime

  /** The `user_claims` dictionary: the user's roles and e-mail. */
  datatype Claims = Claims(roles: seq<string>, email: string)

  /** The keyword arguments handed to `create_access_token` / `create_refresh_token`. */
  datatype TokenParams = TokenParams(subject: UserId, userClaims: Option<Claims>, expiresTime: Option<Lifetime>)

  datatype TokenKind = AccessKind | RefreshKind

  datatype Token = Token(kind: TokenKind, params: TokenParams, serial: nat)

  /** The `Tokens` schema: an access token and a refresh token. */
  datatype TokenPair = TokenPair(accessToken: Token, refreshToken: Token)

  /** `params_for_access`: subject and claims, plus the access lifetime when `is_ex`. */
  function AccessParams(subject: UserId, isEx: bool, userClaims: Claims): TokenParams
  {
    TokenParams(subject, Some(userClaims), if isEx then Some(AccessLifetime) else None)
  }

  /** `params_for_refresh`: the subject only, plus the refresh lifetime when `is_ex`. */
  function RefreshParams(subject: UserId, isEx: bool): TokenParams
  {
    TokenParams(subject, None, if isEx then Some(RefreshLifetime) else None)
  }
}

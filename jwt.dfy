/** The JWT wrapper the services use: access and refresh tokens signed with their own secrets,
    with an expiry `ttl` seconds after issue, and verification against a secret and the clock.
    Signing is modelled by a token value that records the secret it was signed with. */
module Jwt {
  import opened Wrappers
  import opened UserEntity

  /** The payload the services put in a token. */
  datatype Claims = Claims(id: string, email: string, role: UserRole, status: Status)

  /** A token as a client presents it: either one this server signed or any other text. */
  datatype Token = Signed(secret: string, claims: Claims, issuedAt: int, expiresAt: int)
                 | Unsigned(text: string)

  datatype JwtConfig = JwtConfig(accessSecret: string, refreshSecret: string,
                                 accessTtl: nat, refreshTtl: nat)

  /** The expiry defaults `7d` and `30d`, in seconds. */
  const DefaultAccessTtl: nat := 7 * 24 * 60 * 60
  const DefaultRefreshTtl: nat := 30 * 24 * 60 * 60

  function DefaultConfig(accessSecret: string, refreshSecret: string): (c: JwtConfig)
    ensures c.accessTtl == 604800 && c.refreshTtl == 2592000
  {
    JwtConfig(accessSecret, refreshSecret, DefaultAccessTtl, DefaultRefreshTtl)
  }

  /** JWT times are whole seconds: the clock in milliseconds rounded down. */
  function Seconds(nowMs: int): (s: int)
    ensures s * 1000 <= nowMs < s * 1000 + 1000
  {
    nowMs / 1000
  }

  function Sign(secret: string, claims: Claims, ttl: nat, nowMs: int): Token {
    Signed(secret, claims, Seconds(nowMs), Seconds(nowMs) + ttl)
  }

  function GenerateAccessToken(cfg: JwtConfig, claims: Claims, nowMs: int): Token {
    Sign(cfg.accessSecret, claims, cfg.accessTtl, nowMs)
  }

  function GenerateRefreshToken(cfg: JwtConfig, claims: Claims, nowMs: int): Token {
    Sign(cfg.refreshSecret, claims, cfg.refreshTtl, nowMs)
  }

  /** A token verifies when it was signed with `secret` and the current second is before its
      expiry; otherwise the call fails with `message`. */
  function Verify(secret: string, token: Token, nowMs: int, message: string): (r: Result<Claims, string>)
    ensures r.Success? <==> token.Signed? && token.secret == secret && Seconds(nowMs) < token.expiresAt
    ensures r.Success? ==> r.value == token.claims
    ensures r.Failure? ==> r.error == message
  {
    if token.Signed? && token.secret == secret && Seconds(nowMs) < token.expiresAt then
      Success(token.claims)
    else
      Failure(message)
  }

  function VerifyToken(cfg: JwtConfig, token: Token, nowMs: int): Result<Claims, string> {
    Verify(cfg.accessSecret, token, nowMs, "Invalid token")
  }

  function VerifyRefreshToken(cfg: JwtConfig, token: Token, nowMs: int): Result<Claims, string> {
    Verify(cfg.refreshSecret, token, nowMs, "Invalid refresh token")
  }

  /** A refresh token gives back the claims it was minted with for exactly `refreshTtl`
      seconds counted from the second it was issued in, and "Invalid refresh token" after. */
  lemma RefreshTokenRoundTrip(cfg: JwtConfig, claims: Claims, issuedMs: int, nowMs: int)
    ensures VerifyRefreshToken(cfg, GenerateRefreshToken(cfg, claims, issuedMs), nowMs) ==
            if Seconds(nowMs) < Seconds(issuedMs) + cfg.refreshTtl then Success(claims)
            else Failure("Invalid refresh token")
  {
  }

  /** The same for access tokens. */
  lemma AccessTokenRoundTrip(cfg: JwtConfig, claims: Claims, issuedMs: int, nowMs: int)
    ensures VerifyToken(cfg, GenerateAccessToken(cfg, claims, issuedMs), nowMs) ==
            if Seconds(nowMs) < Seconds(issuedMs) + cfg.accessTtl then Success(claims)
            else Failure("Invalid token")
  {
  }

  /** An access token is refused where a refresh token is expected exactly when the two
      secrets differ (or it has expired): the separation rests on the configuration alone. */
  lemma AccessTokenAsRefreshToken(cfg: JwtConfig, claims: Claims, issuedMs: int, nowMs: int)
    requires Seconds(nowMs) < Seconds(issuedMs) + cfg.accessTtl
    ensures VerifyRefreshToken(cfg, GenerateAccessToken(cfg, claims, issuedMs), nowMs).Success?
            <==> cfg.accessSecret == cfg.refreshSecret
  {
  }
}

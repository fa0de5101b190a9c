/**
  Claim times of an access token (Services/Tokens/AccessTokenIssuer.cs) and the lifetime check of
  Handlers/Authentication/ConfigureJwtBearerOptions.cs. Instants are ticks of 100 ns; a JWT carries
  whole seconds.
*/
module AccessTokens {
  import opened Options

  const TICKS_PER_SECOND := 10_000_000

  datatype Method = Password | Totp | RecoveryCode | Passkey | Google | GitHub

  datatype AccessToken = AccessToken(session: nat, issuedAt: int, expiresAt: int, authTime: int, methods: seq<Method>)

  datatype JwtOptions = JwtOptions(lifetime: int, skew: int)

  /** The ranges JwtOptions validates: lifetime at least a minute, skew not negative. */
  predicate ValidJwt(jwt: JwtOptions) {
    jwt.lifetime >= 60 * TICKS_PER_SECOND && jwt.skew >= 0
  }

  /** ToUnixTimeSeconds, read back as an instant. */
  function WholeSeconds(instant: int): int {
    instant / TICKS_PER_SECOND * TICKS_PER_SECOND
  }

  function Mint(jwt: JwtOptions, session: nat, authenticatedAt: int, methods: seq<Method>, now: int): AccessToken {
    AccessToken(session, WholeSeconds(now), WholeSeconds(now + jwt.lifetime), WholeSeconds(authenticatedAt), methods)
  }

  /** `cut` is `instant` cut down to the second. */
  predicate CutToSecond(cut: int, instant: int) {
    cut % TICKS_PER_SECOND == 0 && cut <= instant < cut + TICKS_PER_SECOND
  }

  /** The claims of a token for `session`, issued at `now` to a user who authenticated at `authenticatedAt`. */
  predicate Says(jwt: JwtOptions, token: AccessToken, session: nat, authenticatedAt: int, methods: seq<Method>,
                 now: int) {
    && token.session == session && token.methods == methods
    && CutToSecond(token.authTime, authenticatedAt)
    && CutToSecond(token.issuedAt, now) && CutToSecond(token.expiresAt, now + jwt.lifetime)
  }

  /** A minted token says so, and no other token does. */
  lemma MintedExactly(jwt: JwtOptions, token: AccessToken, session: nat, authenticatedAt: int, methods: seq<Method>,
                      now: int)
    ensures token == Mint(jwt, session, authenticatedAt, methods, now) <==>
            Says(jwt, token, session, authenticatedAt, methods, now)
  {
    CutExactly(token.authTime, authenticatedAt);
    CutExactly(token.issuedAt, now);
    CutExactly(token.expiresAt, now + jwt.lifetime);
  }

  lemma CutExactly(cut: int, instant: int)
    ensures cut == WholeSeconds(instant) <==> CutToSecond(cut, instant)
  {
  }

  predicate ValidateLifetime(notBefore: Option<int>, expires: Option<int>, now: int, skew: int) {
    if expires.None? || (notBefore.Some? && notBefore.value > expires.value) then false
    else (notBefore.None? || notBefore.value <= now + skew) && expires.value >= now - skew
  }

  /** A token passes from its nbf, if it has one, to its exp, both moved outwards by the skew. */
  lemma LifetimeExactly(notBefore: Option<int>, expires: Option<int>, now: int, skew: int)
    ensures ValidateLifetime(notBefore, expires, now, skew) <==>
            && expires.Some? && now - expires.value <= skew
            && (notBefore.Some? ==> notBefore.value <= expires.value && notBefore.value - now <= skew)
  {
  }

  /** A minted token carries no nbf claim. */
  predicate Passes(jwt: JwtOptions, token: AccessToken, now: int) {
    ValidateLifetime(None, Some(token.expiresAt), now, jwt.skew)
  }

  /** A minted token passes until lifetime + skew after minting, less at most the cut to a second. */
  lemma MintedLifetime(jwt: JwtOptions, session: nat, authenticatedAt: int, methods: seq<Method>, now: int, at: int)
    ensures Passes(jwt, Mint(jwt, session, authenticatedAt, methods, now), at) ==> at <= now + jwt.lifetime + jwt.skew
    ensures at + TICKS_PER_SECOND <= now + jwt.lifetime + jwt.skew + 1
            ==> Passes(jwt, Mint(jwt, session, authenticatedAt, methods, now), at)
  {
    var end := now + jwt.lifetime;
    assert end == end / TICKS_PER_SECOND * TICKS_PER_SECOND + end % TICKS_PER_SECOND;
  }
}

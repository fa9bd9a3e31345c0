/** The token service: a token is identified with its claims, and a signature
    check is membership in the set of claims ever signed (HS256 is taken to be
    unforgeable). Section 4.1.4 of RFC 7519 gives `exp`, section 4.1.7 `jti`. */
module AuthTokens {
  import opened Options
  import opened SessionTable

  datatype TokenType = Access | Refresh

  datatype Claims = Claims(sub: UserId, typ: TokenType, jti: Uuid, fam: Uuid, exp: int)

  /** What signing takes from outside: three random UUIDs and the configured
      lifetimes in seconds. `familyId` is used only when a family is opened. */
  datatype Mint = Mint(jti: Uuid, familyId: Uuid, accessJti: Uuid, accessTtl: int, refreshTtl: int)

  datatype TokenPair = TokenPair(access: Claims, refresh: Claims, expiresIn: nat, refreshExpiresAt: int)

  const ACCESS_TOKEN_SECONDS: nat := 900

  function Seconds(now: Time): nat {
    now / 1000
  }

  predicate Live(c: Claims, now: Time) {
    c.exp > Seconds(now)
  }

  /** None stands for the one UnauthorizedException every failure ends in. */
  function Verify(issued: set<Claims>, token: Claims, expected: TokenType, now: Time): (r: Option<Claims>)
    ensures r.Some? <==> token in issued && now / 1000 < token.exp && token.typ == expected
    ensures r.Some? ==> r.value == token
  {
    if token in issued && Live(token, now) then
      if token.typ != expected then None else Some(token)
    else None
  }

  function Sign(user: UserId, typ: TokenType, ttl: int, jti: Uuid, fam: Uuid, now: Time): Claims {
    Claims(user, typ, jti, fam, Seconds(now) + ttl)
  }

  /** None when the fresh refresh token is already expired: reading its own
      expiry back verifies it, and that verification throws. */
  function SignTokenPair(user: UserId, familyId: Option<Uuid>, m: Mint, now: Time): (r: Option<TokenPair>)
    ensures r.Some? <==> m.refreshTtl > 0
  {
    var fam := if familyId.Some? then familyId.value else m.familyId;
    var access := Sign(user, Access, m.accessTtl, m.accessJti, fam, now);
    var refresh := Sign(user, Refresh, m.refreshTtl, m.jti, fam, now);
    if !Live(refresh, now) then None
    else Some(TokenPair(access, refresh, ACCESS_TOKEN_SECONDS, refresh.exp * 1000))
  }

  /** The row `buildTokenResponse` stores for a signed pair. */
  function RowOf(user: UserId, p: TokenPair): Row {
    Row(user, p.refresh.jti, p.refresh.fam, p.refreshExpiresAt, None, None)
  }

  /** A stored row speaks about the same session as a refresh token. */
  predicate Agrees(c: Claims, row: Row) {
    && c.jti == row.jti
    && c.fam == row.familyId
    && c.sub == row.userId
    && c.exp * 1000 == row.expiresAt
  }

  lemma SignedPairAgreesWithItsRow(user: UserId, familyId: Option<Uuid>, m: Mint, now: Time)
    requires m.refreshTtl > 0
    ensures var p := SignTokenPair(user, familyId, m, now).value;
      && Agrees(p.refresh, RowOf(user, p))
      && p.access.fam == p.refresh.fam == (if familyId.Some? then familyId.value else m.familyId)
      && Verify({p.access, p.refresh}, p.refresh, Refresh, now) == Some(p.refresh)
      && Verify({p.access, p.refresh}, p.access, Refresh, now) == None
  {
  }

  /** Every claim of a signed pair, and the row stored for it, from the inputs. */
  lemma SignedPairWrittenOut(user: UserId, familyId: Option<Uuid>, m: Mint, now: Time)
    requires m.refreshTtl > 0
    ensures SignTokenPair(user, familyId, m, now).Some?
    ensures var p := SignTokenPair(user, familyId, m, now).value;
      var fam := if familyId.Some? then familyId.value else m.familyId;
      && p.refresh == Claims(user, Refresh, m.jti, fam, now / 1000 + m.refreshTtl)
      && p.access == Claims(user, Access, m.accessJti, fam, now / 1000 + m.accessTtl)
      && p.refreshExpiresAt == 1000 * (now / 1000 + m.refreshTtl) && p.expiresIn == 900
      && RowOf(user, p) == Row(user, m.jti, fam, 1000 * (now / 1000 + m.refreshTtl), None, None)
  {
  }

  /** A signed token verifies, as its own type only, for exactly its lifetime. */
  lemma SignedPairLives(user: UserId, familyId: Option<Uuid>, m: Mint, now: Time, issued: set<Claims>, t: Time)
    requires m.refreshTtl > 0
    requires var p := SignTokenPair(user, familyId, m, now).value; p.refresh in issued && p.access in issued
    ensures var p := SignTokenPair(user, familyId, m, now).value;
      && (Verify(issued, p.refresh, Refresh, t) == Some(p.refresh) <==> t / 1000 < now / 1000 + m.refreshTtl)
      && (Verify(issued, p.access, Access, t) == Some(p.access) <==> t / 1000 < now / 1000 + m.accessTtl)
      && Verify(issued, p.access, Refresh, t) == None && Verify(issued, p.refresh, Access, t) == None
  {
    SignedPairWrittenOut(user, familyId, m, now);
  }

  /** `expires_in` is a constant, so it tells the access token's true lifetime
      exactly when the configured one is the default fifteen minutes. */
  lemma ExpiresInIsTrueOnlyAtTheDefault(user: UserId, familyId: Option<Uuid>, m: Mint, now: Time)
    requires m.refreshTtl > 0
    ensures var p := SignTokenPair(user, familyId, m, now).value;
      p.access.exp - Seconds(now) == p.expiresIn <==> m.accessTtl == ACCESS_TOKEN_SECONDS
  {
  }

  /** A row old enough to purge belongs to a token that no longer verifies. */
  lemma ExpiredRowMeansDeadToken(c: Claims, row: Row, before: int, now: Time)
    requires Agrees(c, row) && row.expiresAt < before <= now
    ensures !Live(c, now)
  {
  }
}

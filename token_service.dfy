/**
 * `TokenService`: the access token it mints (subject and user name, no role),
 * and the refresh-token row it creates and saves at once.
 */
module TokenSpec {
  import opened Results
  import opened Guids
  import opened Base64
  import opened Jwt
  import opened Entities
  import opened Store
  import Seqs

  /** A refresh token from this service stays valid for seven days. */
  const RefreshTokenLifetime: int := 7 * SecondsPerDay

  /** `GenerateAccessToken`: the token it serialises. */
  function AccessToken(settings: JwtSettings, user: User, now: Time): Token
  {
    Token(
      HmacSha256,
      [JwtClaim("sub", Format(user.id)), JwtClaim("unique_name", user.username)],
      settings.issuer,
      settings.audience,
      now + settings.expiryMinutes * SecondsPerMinute,
      Hmac(settings.secretKey))
  }

  /** The row `GenerateAndSaveRefreshTokenAsync` builds from a new Id and 32 random bytes. */
  function NewRefreshToken(user: User, now: Time, id: Guid, random: Bytes32): RefreshToken
  {
    RefreshToken(id, Encode(random), user.id, now, now + RefreshTokenLifetime, None)
  }

  /** `GenerateAndSaveRefreshTokenAsync`: track the new row, then save everything pending. */
  function GenerateAndSave(s: Scope, user: User, now: Time, id: Guid, random: Bytes32): (Result<RefreshToken>, Scope)
  {
    var row := NewRefreshToken(user, now, id, random);
    var (saved, s1) := SaveChanges(s.(tracked := s.tracked.(refreshTokens := s.tracked.refreshTokens + [row])));
    if saved.Ok? then (Ok(row), s1) else (Err(saved.error), s1)
  }

  /**
   * The access token carries exactly a subject (the user's Id) and a unique
   * name, with no role, and lives `ExpiryMinutes` minutes.
   */
  lemma AccessTokenClaims(settings: JwtSettings, user: User, now: Time)
    ensures var t := AccessToken(settings, user, now);
      && (forall c :: c in t.payload <==> c == JwtClaim("sub", Format(user.id)) || c == JwtClaim("unique_name", user.username))
      && t.expires == now + 60 * settings.expiryMinutes
      && t.alg == "HS256"
  {
  }

  /**
   * The access token is accepted by the service's own extractor, its
   * NameIdentifier parses back to the user's Id, and it has no Role claim.
   */
  lemma AccessTokenIdentifiesUser(settings: JwtSettings, user: User, now: Time)
    ensures var r := PrincipalFromToken(settings.secretKey, Compact(AccessToken(settings, user, now)));
      && r.Ok?
      && TryParseNullable(FindFirst(r.value, NameIdentifier)) == Some(user.id)
      && FindFirst(r.value, Name) == Some(user.username)
      && FindFirst(r.value, Role) == None
  {
    var p := PrincipalOf(AccessToken(settings, user, now).payload);
    assert p.claims[0] == Claim(NameIdentifier, Format(user.id));
    assert p.claims[1] == Claim(Name, user.username);
    TryParseFormat(user.id);
  }

  /** A token is fresh for 7 days, belongs to the user, and its value is 44 characters of base 64. */
  lemma NewRefreshTokenShape(user: User, now: Time, id: Guid, random: Bytes32)
    ensures var row := NewRefreshToken(user, now, id, random);
      && row.userId == user.id && row.id == id && row.created == now
      && row.expires == now + 604800 && IsActive(row, now)
      && |row.token| == 44
      && forall i :: 0 <= i < 44 ==> IsAlphabet(row.token[i]) || row.token[i] == '='
  {
    Encode32(random);
    EncodeAlphabet(random);
  }

  /** Different random bytes give different token values. */
  lemma TokenValueInjective(user: User, now: Time, id: Guid, a: Bytes32, b: Bytes32)
    ensures NewRefreshToken(user, now, id, a).token == NewRefreshToken(user, now, id, b).token ==> a == b
  {
    EncodeInjective(a, b);
  }

  /**
   * On a store that satisfies its key constraints, saving succeeds exactly
   * when the new Id is unused; it then stores the tracked tables with one row
   * more, and on failure the stored tables are untouched.
   */
  lemma GenerateAndSaveAddsOneRow(s: Scope, user: User, now: Time, id: Guid, random: Bytes32)
    requires KeysUnique(s.tracked)
    ensures var (r, s1) := GenerateAndSave(s, user, now, id, random);
      && (r.Ok? <==> id !in Seqs.Keys(s.tracked.refreshTokens, TokenKey))
      && (r.Ok? ==>
            && r.value == NewRefreshToken(user, now, id, random)
            && s1.stored == s1.tracked
            && s1.stored == s.tracked.(refreshTokens := s.tracked.refreshTokens + [r.value]))
      && (r.Err? ==> r.error == DbUpdateException && s1.stored == s.stored)
  {
    AddTokenKeys(s.tracked, NewRefreshToken(user, now, id, random));
  }
}

module TokenServices {
  import opened Results
  import opened Guids
  import opened Base64
  import opened Entities
  import opened Store
  import opened Persistence
  import TokenSpec

  class TokenService {
    const settings: JwtSettings
    const db: AppDbContext

    constructor(settings: JwtSettings, db: AppDbContext)
      ensures this.settings == settings && this.db == db
    {
      this.settings := settings;
      this.db := db;
    }

    method GenerateAndSaveRefreshToken(user: User, now: Time, id: Guid, random: Bytes32) returns (r: Result<RefreshToken>)
      modifies db, db.database
      ensures (r, db.Current()) == TokenSpec.GenerateAndSave(old(db.Current()), user, now, id, random)
      ensures db.database.snapshot == old(db.database.snapshot)
    {
      var row := TokenSpec.NewRefreshToken(user, now, id, random);
      db.AddRefreshToken(row);
      var saved := db.SaveChanges();
      if saved.Ok? {
        r := Ok(row);
      } else {
        r := Err(saved.error);
      }
    }
  }
}

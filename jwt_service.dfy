/**
 * `JwtService`: access tokens with a role claim, refresh tokens with a
 * configured lifetime, the transactional rotation `RefreshTokenPairAsync`
 * (which checks the role claim against the stored role), and the bulk
 * revocation `InvalidateUserTokensAsync`.
 */
module JwtSpec {
  import opened Results
  import opened Guids
  import opened Base64
  import opened Jwt
  import opened Entities
  import opened Store
  import Seqs

  /**
   * `GenerateAccessToken`: subject, unique name and role. The handler writes
   * `ClaimTypes.Role` under its short JWT name "role".
   */
  function AccessToken(settings: JwtSettings, user: User, now: Time): Token
  {
    Token(
      HmacSha256,
      [JwtClaim("sub", Format(user.id)), JwtClaim("unique_name", user.username), JwtClaim("role", RoleName(user.role))],
      settings.issuer,
      settings.audience,
      now + settings.expiryMinutes * SecondsPerMinute,
      Hmac(settings.secretKey))
  }

  /** `GenerateRefreshTokenAsync`: a new row value; nothing is tracked or saved. */
  function GenerateRefreshToken(settings: JwtSettings, user: User, now: Time, id: Guid, random: Bytes32): RefreshToken
  {
    RefreshToken(id, Encode(random), user.id, now, now + settings.refreshTokenExpiryDays * SecondsPerDay, None)
  }

  /** `ValidateRefreshToken`. */
  predicate ValidateRefreshToken(t: RefreshToken, now: Time)
  {
    IsActive(t, now) && t.expires > now
  }

  /** `RefreshTokenPairAsync` as written: the successor it returns is never tracked. */
  function RefreshTokenPair(settings: JwtSettings, s: Scope, dto: TokenDto, now: Time, id: Guid, random: Bytes32)
    : (Result<TokenDto>, Scope)
  {
    Rotate(settings, s, dto, now, id, random, false)
  }

  /** `RefreshTokenPairAsync` with the successor added to RefreshTokens before the save. */
  function RefreshTokenPairPersisted(settings: JwtSettings, s: Scope, dto: TokenDto, now: Time, id: Guid, random: Bytes32)
    : (Result<TokenDto>, Scope)
  {
    Rotate(settings, s, dto, now, id, random, true)
  }

  /** The checks before the transaction. */
  function Rotate(settings: JwtSettings, s: Scope, dto: TokenDto, now: Time, id: Guid, random: Bytes32, persist: bool)
    : (Result<TokenDto>, Scope)
  {
    if dto.refreshToken.None? || IsNullOrWhiteSpace(dto.accessToken) then (Err(ArgumentException("Invalid token data")), s)
    else
      var principal := PrincipalFromToken(settings.secretKey, dto.accessToken);
      if principal.Err? then (Err(principal.error), s)
      else
        var userId := TryParseNullable(FindFirst(principal.value, NameIdentifier));
        if userId.None? then (Err(SecurityTokenException("Invalid user ID format")), s)
        else InTransaction(settings, s, dto.refreshToken.value.token, principal.value, userId.value, now, id, random, persist)
  }

  /**
   * The body of the transaction. Each failure rolls the stored tables back to
   * `s.stored`, where the transaction began.
   */
  function InTransaction(settings: JwtSettings, s: Scope, value: string, principal: Principal, userId: Guid,
                         now: Time, id: Guid, random: Bytes32, persist: bool)
    : (Result<TokenDto>, Scope)
  {
    var users := s.tracked.users;
    var k := UserWithId(users, userId);
    if k == |users| then (Err(SecurityTokenException("User not found")), s)
    else if FindFirst(principal, Role) != Some(RoleName(users[k].role)) then (Err(SecurityTokenException("Role mismatch")), s)
    else
      var rows := s.tracked.refreshTokens;
      var i := TokenMatch(rows, value, userId);
      if i == |rows| then (Err(SecurityTokenException("Invalid refresh token")), s)
      else if !ValidateRefreshToken(rows[i], now) then (Err(SecurityTokenException("Refresh token is expired or revoked")), s)
      else
        var successor := GenerateRefreshToken(settings, users[k], now, id, random);
        var pending := if persist then Revoke(rows, i, now) + [successor] else Revoke(rows, i, now);
        var (saved, s1) := SaveChanges(s.(tracked := s.tracked.(refreshTokens := pending)));
        if saved.Err? then (Err(saved.error), Scope(s1.tracked, s.stored))
        else (Ok(TokenDto(Compact(AccessToken(settings, users[k], now)), Some(successor))), s1)
  }

  /** `InvalidateUserTokensAsync`: the user's rows are deleted in the database, and later queries no longer return them. */
  function InvalidateUserTokens(s: Scope, userId: Guid): Scope
  {
    Scope(s.tracked.(refreshTokens := TokensNotOf(s.tracked.refreshTokens, userId)),
          s.stored.(refreshTokens := TokensNotOf(s.stored.refreshTokens, userId)))
  }

  /** The Id in a valid access token's NameIdentifier claim, if it parses as a GUID. */
  function Subject(settings: JwtSettings, access: TokenString): Option<Guid>
    requires PrincipalFromToken(settings.secretKey, access).Ok?
  {
    TryParseNullable(FindFirst(PrincipalFromToken(settings.secretKey, access).value, NameIdentifier))
  }

  /** Every check of `Rotate` before its first write passes on tables `t`. */
  predicate Redeemable(settings: JwtSettings, t: Tables, dto: TokenDto, now: Time)
  {
    && dto.refreshToken.Some? && !IsNullOrWhiteSpace(dto.accessToken)
    && PrincipalFromToken(settings.secretKey, dto.accessToken).Ok?
    && Subject(settings, dto.accessToken).Some?
    && var userId := Subject(settings, dto.accessToken).value;
       var k := UserWithId(t.users, userId);
       && k < |t.users|
       && FindFirst(PrincipalFromToken(settings.secretKey, dto.accessToken).value, Role) == Some(RoleName(t.users[k].role))
       && var i := TokenMatch(t.refreshTokens, dto.refreshToken.value.token, userId);
          i < |t.refreshTokens| && ValidateRefreshToken(t.refreshTokens[i], now)
  }

  /** The index of the row a request presents, in `t`. */
  function PresentedRow(settings: JwtSettings, t: Tables, dto: TokenDto): nat
    requires dto.refreshToken.Some? && PrincipalFromToken(settings.secretKey, dto.accessToken).Ok?
    requires Subject(settings, dto.accessToken).Some?
  {
    TokenMatch(t.refreshTokens, dto.refreshToken.value.token, Subject(settings, dto.accessToken).value)
  }

  /** The user a request names, in `t`. */
  function Holder(settings: JwtSettings, t: Tables, dto: TokenDto): User
    requires PrincipalFromToken(settings.secretKey, dto.accessToken).Ok? && Subject(settings, dto.accessToken).Some?
    requires UserWithId(t.users, Subject(settings, dto.accessToken).value) < |t.users|
  {
    t.users[UserWithId(t.users, Subject(settings, dto.accessToken).value)]
  }

  /**
   * The access token carries the user's Id as subject, the user name and the
   * stored role, is accepted by `GetPrincipalFromToken`, and lives
   * `ExpiryMinutes` minutes.
   */
  lemma AccessTokenIdentifiesUser(settings: JwtSettings, user: User, now: Time)
    ensures var a := Compact(AccessToken(settings, user, now));
      && !IsNullOrWhiteSpace(a)
      && PrincipalFromToken(settings.secretKey, a).Ok?
      && Subject(settings, a) == Some(user.id)
      && FindFirst(PrincipalFromToken(settings.secretKey, a).value, Name) == Some(user.username)
      && FindFirst(PrincipalFromToken(settings.secretKey, a).value, Role) == Some(RoleName(user.role))
      && a.token.expires == now + 60 * settings.expiryMinutes
  {
    var p := PrincipalOf(AccessToken(settings, user, now).payload);
    assert p.claims[0] == Claim(NameIdentifier, Format(user.id));
    assert p.claims[1] == Claim(Name, user.username);
    assert p.claims[2] == Claim(Role, RoleName(user.role));
    TryParseFormat(user.id);
  }

  /** The refresh token belongs to the user, lives `RefreshTokenExpiryDays` days and its value is 44 characters. */
  lemma RefreshTokenShape(settings: JwtSettings, user: User, now: Time, id: Guid, random: Bytes32)
    ensures var row := GenerateRefreshToken(settings, user, now, id, random);
      && row.userId == user.id && row.created == now && row.revoked == None
      && row.expires == now + 86400 * settings.refreshTokenExpiryDays
      && |row.token| == 44
  {
    Encode32(random);
  }

  /** A blank access token or a missing refresh token is refused before the store is read. */
  lemma InvalidTokenDataRejected(settings: JwtSettings, s: Scope, dto: TokenDto, now: Time, id: Guid, random: Bytes32)
    requires dto.refreshToken.None? || IsNullOrWhiteSpace(dto.accessToken)
    ensures RefreshTokenPair(settings, s, dto, now, id, random) == (Err(ArgumentException("Invalid token data")), s)
  {
  }

  /** An access token whose NameIdentifier claim is missing or is not a GUID is refused before the store is read. */
  lemma SubjectNotGuidRejected(settings: JwtSettings, s: Scope, dto: TokenDto, now: Time, id: Guid, random: Bytes32)
    requires dto.refreshToken.Some? && !IsNullOrWhiteSpace(dto.accessToken)
    requires PrincipalFromToken(settings.secretKey, dto.accessToken).Ok? && Subject(settings, dto.accessToken).None?
    ensures RefreshTokenPair(settings, s, dto, now, id, random) == (Err(SecurityTokenException("Invalid user ID format")), s)
  {
  }

  /**
   * Inside the transaction each failed check throws its own message, in the
   * order the code makes them, and the tables are rolled back: a missing
   * user, a role claim other than the stored role, no row with this value
   * and owner, and a row that is revoked or expired.
   */
  lemma TransactionChecks(settings: JwtSettings, t: Tables, dto: TokenDto, now: Time, id: Guid, random: Bytes32,
                          persist: bool)
    requires dto.refreshToken.Some? && !IsNullOrWhiteSpace(dto.accessToken)
    requires PrincipalFromToken(settings.secretKey, dto.accessToken).Ok? && Subject(settings, dto.accessToken).Some?
    ensures var (r, s1) := Rotate(settings, Fresh(t), dto, now, id, random, persist);
      var userId := Subject(settings, dto.accessToken).value;
      var role := FindFirst(PrincipalFromToken(settings.secretKey, dto.accessToken).value, Role);
      var found := UserWithId(t.users, userId) < |t.users|;
      && ((forall k :: 0 <= k < |t.users| ==> t.users[k].id != userId) ==>
            r == Err(SecurityTokenException("User not found")))
      && (found && role != Some(RoleName(Holder(settings, t, dto).role)) ==>
            r == Err(SecurityTokenException("Role mismatch")))
      && (found && role == Some(RoleName(Holder(settings, t, dto).role)) && PresentedRow(settings, t, dto) == |t.refreshTokens| ==>
            r == Err(SecurityTokenException("Invalid refresh token")))
      && (found && role == Some(RoleName(Holder(settings, t, dto).role)) && PresentedRow(settings, t, dto) < |t.refreshTokens|
          && !ValidateRefreshToken(t.refreshTokens[PresentedRow(settings, t, dto)], now) ==>
            r == Err(SecurityTokenException("Refresh token is expired or revoked")))
      && (r.Err? ==> s1.stored == t)
  {
    if UserWithId(t.users, Subject(settings, dto.accessToken).value) < |t.users| &&
       FindFirst(PrincipalFromToken(settings.secretKey, dto.accessToken).value, Role) == Some(RoleName(Holder(settings, t, dto).role)) &&
       PresentedRow(settings, t, dto) == |t.refreshTokens| {
      UnknownValueRefused(settings, t, dto, now, id, random, persist);
    }
  }

  /** Every failure leaves the stored tables as they were: untouched before the transaction, rolled back inside it. */
  lemma FailureLeavesStoreUnchanged(settings: JwtSettings, s: Scope, dto: TokenDto, now: Time, id: Guid, random: Bytes32,
                                    persist: bool)
    ensures var (r, s1) := Rotate(settings, s, dto, now, id, random, persist);
      r.Err? ==> s1.stored == s.stored
  {
  }

  /**
   * On a store that satisfies its key constraints, rotation succeeds exactly
   * when every check passes, and, where the successor is stored, its Id is new.
   */
  lemma RotationSucceedsIff(settings: JwtSettings, t: Tables, dto: TokenDto, now: Time, id: Guid, random: Bytes32,
                            persist: bool)
    requires KeysUnique(t)
    ensures Rotate(settings, Fresh(t), dto, now, id, random, persist).0.Ok? <==>
      Redeemable(settings, t, dto, now) && (persist ==> id !in Seqs.Keys(t.refreshTokens, TokenKey))
  {
    if Redeemable(settings, t, dto, now) {
      var i := PresentedRow(settings, t, dto);
      RevokeKeepsKeys(t, i, now);
      var t1 := t.(refreshTokens := Revoke(t.refreshTokens, i, now));
      if persist {
        var user := Holder(settings, t, dto);
        var successor := GenerateRefreshToken(settings, user, now, id, random);
        AddTokenKeys(t1, successor);
      }
    }
  }

  /**
   * A successful rotation changes one stored row, the presented one, whose
   * `Revoked` becomes `now` (and adds the successor where it is stored); the
   * user row is untouched; the pair returned belongs to the token's subject.
   */
  lemma RotationEffect(settings: JwtSettings, t: Tables, dto: TokenDto, now: Time, id: Guid, random: Bytes32,
                       persist: bool)
    requires Rotate(settings, Fresh(t), dto, now, id, random, persist).0.Ok?
    ensures Redeemable(settings, t, dto, now)
    ensures var (r, s1) := Rotate(settings, Fresh(t), dto, now, id, random, persist);
      var user := Holder(settings, t, dto);
      var successor := GenerateRefreshToken(settings, user, now, id, random);
      && user.id == Subject(settings, dto.accessToken).value
      && s1.stored == s1.tracked && KeysUnique(s1.stored)
      && s1.stored == t.(refreshTokens :=
           var revoked := Revoke(t.refreshTokens, PresentedRow(settings, t, dto), now);
           if persist then revoked + [successor] else revoked)
      && r.value == TokenDto(Compact(AccessToken(settings, user, now)), Some(successor))
  {
  }

  /** A request whose presented value names no usable row of its subject is refused, with no write. */
  lemma UnusableRowRefused(settings: JwtSettings, t: Tables, dto: TokenDto, now: Time, id: Guid, random: Bytes32, persist: bool)
    requires dto.refreshToken.Some?
    requires PrincipalFromToken(settings.secretKey, dto.accessToken).Ok? && Subject(settings, dto.accessToken).Some? ==>
      var i := PresentedRow(settings, t, dto);
      i == |t.refreshTokens| || !ValidateRefreshToken(t.refreshTokens[i], now)
    ensures var (r, s1) := Rotate(settings, Fresh(t), dto, now, id, random, persist);
      r.Err? && s1 == Fresh(t)
  {
  }

  /** When everything up to the row lookup passes but no row holds the value, the error is "Invalid refresh token". */
  lemma UnknownValueRefused(settings: JwtSettings, t: Tables, dto: TokenDto, now: Time, id: Guid, random: Bytes32, persist: bool)
    requires dto.refreshToken.Some? && !IsNullOrWhiteSpace(dto.accessToken)
    requires PrincipalFromToken(settings.secretKey, dto.accessToken).Ok? && Subject(settings, dto.accessToken).Some?
    requires UserWithId(t.users, Subject(settings, dto.accessToken).value) < |t.users|
    requires FindFirst(PrincipalFromToken(settings.secretKey, dto.accessToken).value, Role)
      == Some(RoleName(Holder(settings, t, dto).role))
    requires PresentedRow(settings, t, dto) == |t.refreshTokens|
    ensures Rotate(settings, Fresh(t), dto, now, id, random, persist)
      == (Err(SecurityTokenException("Invalid refresh token")), Fresh(t))
  {
  }

  /**
   * Replay: once a rotation has succeeded, the same refresh-token value
   * presented again for the same subject fails at any later time, with no write.
   */
  lemma ReplayFails(settings: JwtSettings, t: Tables, dto: TokenDto, now: Time, id: Guid, random: Bytes32,
                    dto2: TokenDto, now2: Time, id2: Guid, random2: Bytes32)
    requires RefreshTokenPair(settings, Fresh(t), dto, now, id, random).0.Ok?
    requires dto2.refreshToken.Some? && dto2.refreshToken.value.token == dto.refreshToken.value.token
    requires PrincipalFromToken(settings.secretKey, dto2.accessToken).Ok? ==>
      Subject(settings, dto2.accessToken) == Subject(settings, dto.accessToken)
    ensures var t1 := RefreshTokenPair(settings, Fresh(t), dto, now, id, random).1.stored;
      var (r2, s2) := RefreshTokenPair(settings, Fresh(t1), dto2, now2, id2, random2);
      r2.Err? && s2 == Fresh(t1)
  {
    RotationEffect(settings, t, dto, now, id, random, false);
    var t1 := RefreshTokenPair(settings, Fresh(t), dto, now, id, random).1.stored;
    var i := PresentedRow(settings, t, dto);
    var rows1 := t1.refreshTokens;
    assert rows1 == Revoke(t.refreshTokens, i, now);
    TokenMatchRevoke(t.refreshTokens, i, now, dto.refreshToken.value.token, Subject(settings, dto.accessToken).value);
    UnusableRowRefused(settings, t1, dto2, now2, id2, random2, false);
  }

  /**
   * The refresh token returned by a rotation as written cannot itself be
   * redeemed: presenting the returned pair, at any time, finds no row.
   * (Its value is new unless the random bytes repeat a stored value.)
   */
  lemma SuccessorNotRedeemable(settings: JwtSettings, t: Tables, dto: TokenDto, now: Time, id: Guid, random: Bytes32,
                               now2: Time, id2: Guid, random2: Bytes32)
    requires RefreshTokenPair(settings, Fresh(t), dto, now, id, random).0.Ok?
    requires forall k :: 0 <= k < |t.refreshTokens| ==> t.refreshTokens[k].token != Encode(random)
    ensures var (r, s1) := RefreshTokenPair(settings, Fresh(t), dto, now, id, random);
      RefreshTokenPair(settings, Fresh(s1.stored), r.value, now2, id2, random2)
        == (Err(SecurityTokenException("Invalid refresh token")), Fresh(s1.stored))
  {
    RotationEffect(settings, t, dto, now, id, random, false);
    var (r, s1) := RefreshTokenPair(settings, Fresh(t), dto, now, id, random);
    var user := Holder(settings, t, dto);
    AccessTokenIdentifiesUser(settings, user, now);
    TokenMatchRevoke(t.refreshTokens, PresentedRow(settings, t, dto), now, Encode(random), user.id);
    assert TokenMatch(t.refreshTokens, Encode(random), user.id) == |t.refreshTokens|;
    assert s1.stored.users == t.users;
    UnknownValueRefused(settings, s1.stored, r.value, now2, id2, random2, false);
  }

  /**
   * Corrected: when the successor is stored, the pair returned by a rotation
   * can itself be rotated while the successor is unexpired.
   */
  lemma PersistedSuccessorRedeemable(settings: JwtSettings, t: Tables, dto: TokenDto, now: Time, id: Guid, random: Bytes32,
                                     now2: Time, id2: Guid, random2: Bytes32)
    requires KeysUnique(t)
    requires RefreshTokenPairPersisted(settings, Fresh(t), dto, now, id, random).0.Ok?
    requires forall k :: 0 <= k < |t.refreshTokens| ==> t.refreshTokens[k].token != Encode(random)
    requires now2 < now + settings.refreshTokenExpiryDays * SecondsPerDay
    requires id2 !in Seqs.Keys(RefreshTokenPairPersisted(settings, Fresh(t), dto, now, id, random).1.stored.refreshTokens, TokenKey)
    ensures var (r, s1) := RefreshTokenPairPersisted(settings, Fresh(t), dto, now, id, random);
      RefreshTokenPairPersisted(settings, Fresh(s1.stored), r.value, now2, id2, random2).0.Ok?
  {
    RotationEffect(settings, t, dto, now, id, random, true);
    var (r, s1) := RefreshTokenPairPersisted(settings, Fresh(t), dto, now, id, random);
    var t1 := s1.stored;
    var user := Holder(settings, t, dto);
    var successor := GenerateRefreshToken(settings, user, now, id, random);
    AccessTokenIdentifiesUser(settings, user, now);
    var revoked := Revoke(t.refreshTokens, PresentedRow(settings, t, dto), now);
    assert t1.refreshTokens == revoked + [successor];
    assert t1.users == t.users;
    TokenMatchRevoke(t.refreshTokens, PresentedRow(settings, t, dto), now, successor.token, user.id);
    assert TokenMatch(t.refreshTokens, successor.token, user.id) == |t.refreshTokens|;
    TokenMatchAppend(revoked, successor, successor.token, user.id);
    assert Redeemable(settings, t1, r.value, now2);
    RotationSucceedsIff(settings, t1, r.value, now2, id2, random2, true);
  }

  /** `InvalidateUserTokensAsync` deletes exactly the user's rows and keeps every other row and table. */
  lemma InvalidateRemovesExactlyUserRows(s: Scope, userId: Guid)
    ensures var s1 := InvalidateUserTokens(s, userId);
      && (forall r :: r in s1.stored.refreshTokens <==> r in s.stored.refreshTokens && r.userId != userId)
      && s1.stored.users == s.stored.users && s1.stored.orders == s.stored.orders
      && (KeysUnique(s.stored) ==> KeysUnique(s1.stored))
  {
    if KeysUnique(s.stored) {
      RemoveTokensKeys(s.stored, userId);
    }
  }

  /** Invalidating twice is invalidating once. */
  lemma InvalidateIdempotent(s: Scope, userId: Guid)
    ensures InvalidateUserTokens(InvalidateUserTokens(s, userId), userId) == InvalidateUserTokens(s, userId)
  {
    Seqs.FilterIdempotent(s.stored.refreshTokens, (t: RefreshToken) => t.userId != userId);
    Seqs.FilterIdempotent(s.tracked.refreshTokens, (t: RefreshToken) => t.userId != userId);
  }
}

module JwtServices {
  import opened Results
  import opened Guids
  import opened Base64
  import opened Jwt
  import opened Entities
  import opened Store
  import opened Persistence
  import JwtSpec

  class JwtService {
    const settings: JwtSettings
    const db: AppDbContext

    constructor(settings: JwtSettings, db: AppDbContext)
      ensures this.settings == settings && this.db == db
    {
      this.settings := settings;
      this.db := db;
    }

    /**
     * `RefreshTokenPairAsync`; the successor's Id and the random bytes of its
     * value are parameters. No transaction is open on entry: each request
     * gets its own scoped context, and no caller nests this inside another
     * transaction.
     */
    method RefreshTokenPair(dto: TokenDto, now: Time, id: Guid, random: Bytes32) returns (r: Result<TokenDto>)
      requires db.database.snapshot.None?
      modifies db, db.database
      ensures (r, db.Current()) == JwtSpec.RefreshTokenPair(settings, old(db.Current()), dto, now, id, random)
      ensures db.database.snapshot.None?
    {
      if dto.refreshToken.None? || IsNullOrWhiteSpace(dto.accessToken) {
        return Err(ArgumentException("Invalid token data"));
      }
      var principal := PrincipalFromToken(settings.secretKey, dto.accessToken);
      if principal.Err? {
        return Err(principal.error);
      }
      var userId := TryParseNullable(FindFirst(principal.value, NameIdentifier));
      if userId.None? {
        return Err(SecurityTokenException("Invalid user ID format"));
      }
      db.BeginTransaction();
      r := RotateInTransaction(dto.refreshToken.value.token, principal.value, userId.value, now, id, random);
    }

    /** The try block of `RefreshTokenPairAsync` and its catch, which rolls back. */
    method RotateInTransaction(value: string, principal: Principal, userId: Guid, now: Time, id: Guid, random: Bytes32)
      returns (r: Result<TokenDto>)
      requires db.database.snapshot == Some(db.database.tables)
      modifies db, db.database
      ensures (r, db.Current()) == JwtSpec.InTransaction(settings, old(db.Current()), value, principal, userId, now, id, random, false)
      ensures db.database.snapshot.None?
    {
      var users := db.tracked.users;
      var k := UserWithId(users, userId);
      if k == |users| {
        db.RollbackTransaction();
        return Err(SecurityTokenException("User not found"));
      }
      var user := users[k];
      if FindFirst(principal, Role) != Some(RoleName(user.role)) {
        db.RollbackTransaction();
        return Err(SecurityTokenException("Role mismatch"));
      }
      var rows := db.tracked.refreshTokens;
      var i := TokenMatch(rows, value, userId);
      if i == |rows| {
        db.RollbackTransaction();
        return Err(SecurityTokenException("Invalid refresh token"));
      }
      if !JwtSpec.ValidateRefreshToken(rows[i], now) {
        db.RollbackTransaction();
        return Err(SecurityTokenException("Refresh token is expired or revoked"));
      }
      db.RevokeRefreshToken(i, now);
      var successor := JwtSpec.GenerateRefreshToken(settings, user, now, id, random);
      var access := JwtSpec.AccessToken(settings, user, now);
      var saved := db.SaveChanges();
      if saved.Err? {
        db.RollbackTransaction();
        return Err(saved.error);
      }
      db.CommitTransaction();
      r := Ok(TokenDto(Compact(access), Some(successor)));
    }

    method InvalidateUserTokens(userId: Guid)
      modifies db, db.database
      ensures db.Current() == JwtSpec.InvalidateUserTokens(old(db.Current()), userId)
      ensures db.database.snapshot == old(db.database.snapshot)
    {
      db.DeleteTokensOf(userId);
    }
  }
}

/**
 * `AuthService.RefreshTokenAsync`: the rotation used by Login. It reads the
 * subject of a possibly expired access token, revokes the presented refresh
 * token and saves a successor through TokenService. It compares no role and
 * opens no transaction.
 */
module AuthSpec {
  import opened Results
  import opened Guids
  import opened Base64
  import opened Jwt
  import opened Entities
  import opened Store
  import opened TokenSpec
  import Seqs

  /** The message of `SingleOrDefault` on more than one match. */
  const MoreThanOneMatch := "Sequence contains more than one element"

  /**
   * The message of the exception a query throws when evaluating a value it
   * captures throws: the query's predicate dereferences the presented
   * refresh token, and the query evaluates that before it reads any row.
   */
  const ParameterEvaluationFailed := "An exception was thrown while attempting to evaluate a LINQ query parameter expression."

  /** The Id in the access token's NameIdentifier claim, if it is a non-empty GUID. */
  function SubjectId(settings: JwtSettings, access: TokenString): Option<Guid>
    requires PrincipalFromToken(settings.secretKey, access).Ok?
  {
    var claim := FindFirst(PrincipalFromToken(settings.secretKey, access).value, NameIdentifier);
    if claim.None? || claim.value == "" then None else TryParse(claim.value)
  }

  /** `RefreshTokenAsync`: the checks in the order the code makes them, then `Redeem`. */
  function RefreshToken(settings: JwtSettings, s: Scope, dto: TokenDto, now: Time, id: Guid, random: Bytes32)
    : (r: (Result<TokenDto>, Scope))
    ensures r.0.Ok? ==> r.0.value.refreshToken.Some? && r.0.value.accessToken.Compact?
  {
    var principal := PrincipalFromToken(settings.secretKey, dto.accessToken);
    if principal.Err? then (Err(principal.error), s)
    else if SubjectId(settings, dto.accessToken).None? then (Err(SecurityTokenException("Invalid user ID in token")), s)
    else
      var userId := SubjectId(settings, dto.accessToken).value;
      var matches := UsersWithId(s.tracked.users, userId);
      if |matches| == 0 then (Err(SecurityTokenException("User not found")), s)
      else if |matches| > 1 then (Err(InvalidOperationException(MoreThanOneMatch)), s)
      else if dto.refreshToken.None? then (Err(InvalidOperationException(ParameterEvaluationFailed)), s)
      else
        var rows := s.tracked.refreshTokens;
        var i := TokenMatch(rows, dto.refreshToken.value.token, userId);
        if i == |rows| || !IsActive(rows[i], now) then (Err(SecurityTokenException("Invalid refresh token")), s)
        else Redeem(settings, s, matches[0], i, now, id, random)
  }

  /** The writes: revoke row `i`, save a successor, re-add it, mint an access token, save again. */
  function Redeem(settings: JwtSettings, s: Scope, user: User, i: nat, now: Time, id: Guid, random: Bytes32)
    : (Result<TokenDto>, Scope)
    requires i < |s.tracked.refreshTokens|
  {
    var revoked := s.(tracked := s.tracked.(refreshTokens := Revoke(s.tracked.refreshTokens, i, now)));
    var (created, s1) := GenerateAndSave(revoked, user, now, id, random);
    if created.Err? then (Err(created.error), s1)
    else
      var access := AccessToken(settings, user, now);
      var (saved, s2) := SaveChanges(s1);
      if saved.Err? then (Err(saved.error), s2) else (Ok(TokenDto(Compact(access), Some(created.value))), s2)
  }

  /** Every check before the first write passes: the presented row is found and active. */
  predicate Redeemable(settings: JwtSettings, t: Tables, dto: TokenDto, now: Time)
  {
    && PrincipalFromToken(settings.secretKey, dto.accessToken).Ok?
    && SubjectId(settings, dto.accessToken).Some?
    && |UsersWithId(t.users, SubjectId(settings, dto.accessToken).value)| == 1
    && dto.refreshToken.Some?
    && var i := TokenMatch(t.refreshTokens, dto.refreshToken.value.token, SubjectId(settings, dto.accessToken).value);
       i < |t.refreshTokens| && IsActive(t.refreshTokens[i], now)
  }

  /** The index of the presented row in `t`. */
  function PresentedRow(settings: JwtSettings, t: Tables, dto: TokenDto): nat
    requires PrincipalFromToken(settings.secretKey, dto.accessToken).Ok?
    requires SubjectId(settings, dto.accessToken).Some? && dto.refreshToken.Some?
  {
    TokenMatch(t.refreshTokens, dto.refreshToken.value.token, SubjectId(settings, dto.accessToken).value)
  }

  /** The subject read back from a TokenService access token is the user it was minted for. */
  lemma SubjectOfAccessToken(settings: JwtSettings, user: User, now: Time)
    ensures PrincipalFromToken(settings.secretKey, Compact(AccessToken(settings, user, now))).Ok?
    ensures SubjectId(settings, Compact(AccessToken(settings, user, now))) == Some(user.id)
  {
    AccessTokenIdentifiesUser(settings, user, now);
    EmptyIsNotGuid();
  }

  /**
   * Each failed check throws its own message, before anything is written: an
   * empty or non-GUID subject, a missing user, a missing refresh token, and
   * no active row with this value and owner.
   */
  lemma RotationFailures(settings: JwtSettings, s: Scope, dto: TokenDto, now: Time, id: Guid, random: Bytes32)
    requires PrincipalFromToken(settings.secretKey, dto.accessToken).Ok?
    ensures var r := RefreshToken(settings, s, dto, now, id, random);
      var claim := FindFirst(PrincipalFromToken(settings.secretKey, dto.accessToken).value, NameIdentifier);
      && ((claim.None? || claim.value == "" || TryParse(claim.value).None?) ==>
            r == (Err(SecurityTokenException("Invalid user ID in token")), s))
      && (SubjectId(settings, dto.accessToken).Some? ==>
            var userId := SubjectId(settings, dto.accessToken).value;
            && ((forall k :: 0 <= k < |s.tracked.users| ==> s.tracked.users[k].id != userId) ==>
                  r == (Err(SecurityTokenException("User not found")), s))
            && (|UsersWithId(s.tracked.users, userId)| == 1 && dto.refreshToken.None? ==>
                  r == (Err(InvalidOperationException(ParameterEvaluationFailed)), s))
            && (|UsersWithId(s.tracked.users, userId)| == 1 && dto.refreshToken.Some?
                && (forall k :: 0 <= k < |s.tracked.refreshTokens| ==>
                      var row := s.tracked.refreshTokens[k];
                      row.token == dto.refreshToken.value.token && row.userId == userId ==> !IsActive(row, now)) ==>
                  r == (Err(SecurityTokenException("Invalid refresh token")), s)))
  {
    if SubjectId(settings, dto.accessToken).Some? {
      UsersWithIdEmpty(s.tracked.users, SubjectId(settings, dto.accessToken).value);
    }
  }

  /** Every failure leaves the stored tables as they were. */
  lemma FailureLeavesStoreUnchanged(settings: JwtSettings, s: Scope, dto: TokenDto, now: Time, id: Guid, random: Bytes32)
    ensures var (r, s1) := RefreshToken(settings, s, dto, now, id, random);
      r.Err? ==> s1.stored == s.stored
  {
  }

  /**
   * On a store that satisfies its key constraints, rotation succeeds exactly
   * when the presented row is found and active and the successor's Id is new;
   * the token's role claim plays no part.
   */
  lemma RotationSucceedsIff(settings: JwtSettings, t: Tables, dto: TokenDto, now: Time, id: Guid, random: Bytes32)
    requires KeysUnique(t)
    ensures RefreshToken(settings, Fresh(t), dto, now, id, random).0.Ok? <==>
      Redeemable(settings, t, dto, now) && id !in Seqs.Keys(t.refreshTokens, TokenKey)
  {
    if Redeemable(settings, t, dto, now) {
      var i := PresentedRow(settings, t, dto);
      RevokeKeepsKeys(t, i, now);
      var user := UsersWithId(t.users, SubjectId(settings, dto.accessToken).value)[0];
      GenerateAndSaveAddsOneRow(Fresh(t).(tracked := t.(refreshTokens := Revoke(t.refreshTokens, i, now))), user, now, id, random);
    }
  }

  /**
   * A successful rotation stores exactly two changes: the presented row
   * revoked at `now`, and a new active row, owned by the token's subject,
   * which is the refresh token returned.
   */
  lemma RotationEffect(settings: JwtSettings, t: Tables, dto: TokenDto, now: Time, id: Guid, random: Bytes32)
    requires RefreshToken(settings, Fresh(t), dto, now, id, random).0.Ok?
    ensures Redeemable(settings, t, dto, now)
    ensures var (r, s1) := RefreshToken(settings, Fresh(t), dto, now, id, random);
      var userId := SubjectId(settings, dto.accessToken).value;
      var row := NewRefreshToken(UsersWithId(t.users, userId)[0], now, id, random);
      && s1.stored == s1.tracked
      && s1.stored == t.(refreshTokens := Revoke(t.refreshTokens, PresentedRow(settings, t, dto), now) + [row])
      && r.value.refreshToken == Some(row)
      && row.userId == userId && IsActive(row, now)
      && r.value.accessToken == Compact(AccessToken(settings, UsersWithId(t.users, userId)[0], now))
  {
  }

  /**
   * Replay: once a rotation has succeeded, presenting the same refresh-token
   * value again for the same subject fails, at any later time, with no write.
   */
  lemma ReplayFails(settings: JwtSettings, t: Tables, dto: TokenDto, now: Time, id: Guid, random: Bytes32,
                    dto2: TokenDto, now2: Time, id2: Guid, random2: Bytes32)
    requires RefreshToken(settings, Fresh(t), dto, now, id, random).0.Ok?
    requires dto2.refreshToken.Some? && dto2.refreshToken.value.token == dto.refreshToken.value.token
    requires PrincipalFromToken(settings.secretKey, dto2.accessToken).Ok?
    requires SubjectId(settings, dto2.accessToken) == SubjectId(settings, dto.accessToken)
    ensures var t1 := RefreshToken(settings, Fresh(t), dto, now, id, random).1.stored;
      RefreshToken(settings, Fresh(t1), dto2, now2, id2, random2) == (Err(SecurityTokenException("Invalid refresh token")), Fresh(t1))
  {
    RotationEffect(settings, t, dto, now, id, random);
    var userId := SubjectId(settings, dto.accessToken).value;
    var i := PresentedRow(settings, t, dto);
    var t1 := RefreshToken(settings, Fresh(t), dto, now, id, random).1.stored;
    var row := NewRefreshToken(UsersWithId(t.users, userId)[0], now, id, random);
    var rows1 := t1.refreshTokens;
    assert rows1 == Revoke(t.refreshTokens, i, now) + [row];
    assert t1.users == t.users;
    var value := dto.refreshToken.value.token;
    var j := TokenMatch(rows1, value, userId);
    assert rows1[i].token == value && rows1[i].userId == userId;
    assert forall k :: 0 <= k < i ==> rows1[k] == t.refreshTokens[k];
    assert j == i;
  }
}

module AuthServices {
  import opened Results
  import opened Guids
  import opened Base64
  import opened Jwt
  import opened Entities
  import opened Store
  import opened Persistence
  import opened TokenServices
  import TokenSpec
  import AuthSpec

  class AuthService {
    const tokenService: TokenService
    const db: AppDbContext

    constructor(tokenService: TokenService, db: AppDbContext)
      ensures this.tokenService == tokenService && this.db == db
    {
      this.tokenService := tokenService;
      this.db := db;
    }

    /** The successor's Id and the random bytes of its value are drawn by TokenService. */
    method RefreshToken(dto: TokenDto, now: Time, id: Guid, random: Bytes32) returns (r: Result<TokenDto>)
      requires tokenService.db == db
      modifies db, db.database
      ensures (r, db.Current()) == AuthSpec.RefreshToken(tokenService.settings, old(db.Current()), dto, now, id, random)
      ensures db.database.snapshot == old(db.database.snapshot)
    {
      var settings := tokenService.settings;
      var principal := PrincipalFromToken(settings.secretKey, dto.accessToken);
      if principal.Err? {
        return Err(principal.error);
      }
      var userId := AuthSpec.SubjectId(settings, dto.accessToken);
      if userId.None? {
        return Err(SecurityTokenException("Invalid user ID in token"));
      }
      var matches := UsersWithId(db.tracked.users, userId.value);
      if |matches| == 0 {
        return Err(SecurityTokenException("User not found"));
      } else if |matches| > 1 {
        return Err(InvalidOperationException(AuthSpec.MoreThanOneMatch));
      }
      var user := matches[0];
      if dto.refreshToken.None? {
        return Err(InvalidOperationException(AuthSpec.ParameterEvaluationFailed));
      }
      var rows := db.tracked.refreshTokens;
      var i := TokenMatch(rows, dto.refreshToken.value.token, userId.value);
      if i == |rows| || !IsActive(rows[i], now) {
        return Err(SecurityTokenException("Invalid refresh token"));
      }
      db.RevokeRefreshToken(i, now);
      var created := tokenService.GenerateAndSaveRefreshToken(user, now, id, random);
      if created.Err? {
        return Err(created.error);
      }
      db.ReAddRefreshToken(created.value);
      var access := TokenSpec.AccessToken(settings, user, now);
      var saved := db.SaveChanges();
      if saved.Err? {
        return Err(DbUpdateException);
      }
      r := Ok(TokenDto(Compact(access), Some(created.value)));
    }
  }
}

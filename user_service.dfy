/**
 * `UserService`: registration and login, as orchestration over the store,
 * TokenService and AuthService. Register checks the user name, mints an
 * access token, saves a refresh-token row through TokenService and then saves
 * the user, in two separate commits. Login looks the user up by name, checks
 * the password, and redeems the user's first stored refresh-token row through
 * AuthService's rotation.
 */
module UserSpec {
  import opened Results
  import opened Guids
  import opened Base64
  import opened Jwt
  import opened Entities
  import opened Store
  import opened TokenSpec
  import AuthSpec
  import Seqs

  /** Both responses report an access-token expiry one hour ahead, whatever the settings say. */
  const ReportedAccessLifetime: int := SecondsPerHour

  /** The user `RegisterAsync` builds, with the hash BCrypt makes under the salt it draws. */
  function NewUser(dto: RegisterDto, userId: Guid, hasher: PasswordHasher, salt: string): User
  {
    User(userId, dto.username, hasher.hash(dto.password, salt), UserRole)
  }

  /** `RegisterAsync`: two commits, the refresh-token row first, then the user. */
  function Register(settings: JwtSettings, hasher: PasswordHasher, s: Scope, dto: RegisterDto, now: Time,
                    userId: Guid, salt: string, tokenId: Guid, random: Bytes32): (Result<AuthResponse>, Scope)
  {
    if UserNamed(s.tracked.users, dto.username) < |s.tracked.users| then
      (Err(ApplicationException("User already exists")), s)
    else
      var user := NewUser(dto, userId, hasher, salt);
      var access := AccessToken(settings, user, now);
      var (created, s1) := GenerateAndSave(s, user, now, tokenId, random);
      if created.Err? then (Err(created.error), s1)
      else
        var (saved, s2) := SaveChanges(s1.(tracked := s1.tracked.(users := s1.tracked.users + [user])));
        if saved.Err? then (Err(saved.error), s2)
        else (Ok(AuthResponse(Compact(access), now + ReportedAccessLifetime, created.value.token,
                              now + RefreshTokenLifetime)), s2)
  }

  /**
   * Registration as it is evidently meant: the user is added before the one
   * commit, which stores the user and its refresh-token row together.
   */
  function RegisterFixed(settings: JwtSettings, hasher: PasswordHasher, s: Scope, dto: RegisterDto, now: Time,
                         userId: Guid, salt: string, tokenId: Guid, random: Bytes32): (Result<AuthResponse>, Scope)
  {
    if UserNamed(s.tracked.users, dto.username) < |s.tracked.users| then
      (Err(ApplicationException("User already exists")), s)
    else
      var user := NewUser(dto, userId, hasher, salt);
      var access := AccessToken(settings, user, now);
      var (created, s1) := GenerateAndSave(s.(tracked := s.tracked.(users := s.tracked.users + [user])), user, now, tokenId, random);
      if created.Err? then (Err(created.error), s1)
      else (Ok(AuthResponse(Compact(access), now + ReportedAccessLifetime, created.value.token, created.value.expires)), s1)
  }

  /** `LoginAsync`: find the user, check the password, and rotate the user's first stored row. */
  function Login(settings: JwtSettings, hasher: PasswordHasher, s: Scope, dto: LoginDto, now: Time,
                 id: Guid, random: Bytes32): (Result<AuthResponse>, Scope)
  {
    var users := s.tracked.users;
    var u := UserNamed(users, dto.username);
    if u == |users| then (Err(ApplicationException("User not found")), s)
    else if !hasher.verify(dto.password, users[u].passwordHash) then (Err(ApplicationException("Invalid password")), s)
    else
      var rows := s.tracked.refreshTokens;
      var k := FirstTokenOf(rows, users[u].id);
      if k == |rows| then (Err(ApplicationException("Refresh token not found")), s)
      else
        var pair := TokenDto(Compact(AccessToken(settings, users[u], now)), Some(rows[k]));
        var (changed, s1) := AuthSpec.RefreshToken(settings, s, pair, now, id, random);
        if changed.Err? then (Err(changed.error), s1)
        else (Ok(AuthResponse(changed.value.accessToken, now + ReportedAccessLifetime,
                              changed.value.refreshToken.value.token, rows[k].expires)), s1)
  }

  /**
   * Login as it is evidently meant: after the user and password checks it
   * issues and saves a new refresh token, and reports that token's expiry.
   */
  function LoginFixed(settings: JwtSettings, hasher: PasswordHasher, s: Scope, dto: LoginDto, now: Time,
                      id: Guid, random: Bytes32): (Result<AuthResponse>, Scope)
  {
    var users := s.tracked.users;
    var u := UserNamed(users, dto.username);
    if u == |users| then (Err(ApplicationException("User not found")), s)
    else if !hasher.verify(dto.password, users[u].passwordHash) then (Err(ApplicationException("Invalid password")), s)
    else
      var access := AccessToken(settings, users[u], now);
      var (created, s1) := GenerateAndSave(s, users[u], now, id, random);
      if created.Err? then (Err(created.error), s1)
      else (Ok(AuthResponse(Compact(access), now + ReportedAccessLifetime, created.value.token, created.value.expires)), s1)
  }

  /** A name some user already has is refused before anything is written. */
  lemma DuplicateUsernameRejected(settings: JwtSettings, hasher: PasswordHasher, s: Scope, dto: RegisterDto, now: Time,
                                  userId: Guid, salt: string, tokenId: Guid, random: Bytes32)
    requires exists i :: 0 <= i < |s.tracked.users| && s.tracked.users[i].username == dto.username
    ensures Register(settings, hasher, s, dto, now, userId, salt, tokenId, random)
      == (Err(ApplicationException("User already exists")), s)
    ensures RegisterFixed(settings, hasher, s, dto, now, userId, salt, tokenId, random)
      == (Err(ApplicationException("User already exists")), s)
  {
  }

  /**
   * On a store that satisfies its key constraints, Register succeeds exactly
   * when the name is free and both new Ids are unused.
   */
  lemma RegisterSucceedsIff(settings: JwtSettings, hasher: PasswordHasher, t: Tables, dto: RegisterDto, now: Time,
                            userId: Guid, salt: string, tokenId: Guid, random: Bytes32)
    requires KeysUnique(t)
    ensures Register(settings, hasher, Fresh(t), dto, now, userId, salt, tokenId, random).0.Ok? <==>
      && (forall i :: 0 <= i < |t.users| ==> t.users[i].username != dto.username)
      && tokenId !in Seqs.Keys(t.refreshTokens, TokenKey)
      && userId !in Seqs.Keys(t.users, UserKey)
  {
    var user := NewUser(dto, userId, hasher, salt);
    GenerateAndSaveAddsOneRow(Fresh(t), user, now, tokenId, random);
    var t1 := t.(refreshTokens := t.refreshTokens + [NewRefreshToken(user, now, tokenId, random)]);
    if tokenId !in Seqs.Keys(t.refreshTokens, TokenKey) {
      AddTokenKeys(t, NewRefreshToken(user, now, tokenId, random));
      AddUserKeys(t1, user);
    }
  }

  /**
   * A successful Register stores exactly one new user, with the given name,
   * the hash of the given password and the default role, and one refresh-token
   * row owned by that user; the response carries that row's value and both
   * expiries. With a sound hasher the stored hash verifies the password.
   */
  lemma RegisterEffect(settings: JwtSettings, hasher: PasswordHasher, t: Tables, dto: RegisterDto, now: Time,
                       userId: Guid, salt: string, tokenId: Guid, random: Bytes32)
    requires Register(settings, hasher, Fresh(t), dto, now, userId, salt, tokenId, random).0.Ok?
    ensures var (r, s1) := Register(settings, hasher, Fresh(t), dto, now, userId, salt, tokenId, random);
      var user := NewUser(dto, userId, hasher, salt);
      var row := NewRefreshToken(user, now, tokenId, random);
      && s1.stored == s1.tracked
      && s1.stored == t.(users := t.users + [user], refreshTokens := t.refreshTokens + [row])
      && user.username == dto.username && user.id == userId && user.role == UserRole
      && row.userId == userId && IsActive(row, now)
      && r.value.accessToken == Compact(AccessToken(settings, user, now))
      && r.value.refreshToken == row.token
      && r.value.expiresAt == now + 3600
      && r.value.refreshTokenExpiresAt == now + 604800
      && (Sound(hasher) ==> hasher.verify(dto.password, user.passwordHash))
  {
  }

  /**
   * The first of Register's two commits stores the refresh-token row while
   * its owner is not yet a user: a store that enforces the foreign key from
   * `RefreshTokens.UserId` to `Users.Id` would refuse that commit.
   */
  lemma RegisterCommitsOrphanRow(t: Tables, hasher: PasswordHasher, dto: RegisterDto, now: Time,
                                 userId: Guid, salt: string, tokenId: Guid, random: Bytes32)
    requires KeysUnique(t) && tokenId !in Seqs.Keys(t.refreshTokens, TokenKey)
    requires userId !in Seqs.Keys(t.users, UserKey)
    ensures var (created, s1) := GenerateAndSave(Fresh(t), NewUser(dto, userId, hasher, salt), now, tokenId, random);
      && created.Ok?
      && s1.stored == t.(refreshTokens := t.refreshTokens + [created.value])
      && !TokenOwnersExist(s1.stored)
  {
    var user := NewUser(dto, userId, hasher, salt);
    var row := NewRefreshToken(user, now, tokenId, random);
    GenerateAndSaveAddsOneRow(Fresh(t), user, now, tokenId, random);
    var t1 := t.(refreshTokens := t.refreshTokens + [row]);
    assert row in t1.refreshTokens;
  }

  /**
   * Register is not all-or-nothing: when the user's save is refused (its Id
   * is taken), the refresh-token row the first commit stored stays stored.
   */
  lemma RegisterNotAtomic(settings: JwtSettings, hasher: PasswordHasher, t: Tables, dto: RegisterDto, now: Time,
                          userId: Guid, salt: string, tokenId: Guid, random: Bytes32)
    requires KeysUnique(t) && tokenId !in Seqs.Keys(t.refreshTokens, TokenKey)
    requires forall i :: 0 <= i < |t.users| ==> t.users[i].username != dto.username
    requires userId in Seqs.Keys(t.users, UserKey)
    ensures var (r, s1) := Register(settings, hasher, Fresh(t), dto, now, userId, salt, tokenId, random);
      && r == Err(DbUpdateException)
      && s1.stored == t.(refreshTokens := t.refreshTokens + [NewRefreshToken(NewUser(dto, userId, hasher, salt), now, tokenId, random)])
  {
    var user := NewUser(dto, userId, hasher, salt);
    var row := NewRefreshToken(user, now, tokenId, random);
    GenerateAndSaveAddsOneRow(Fresh(t), user, now, tokenId, random);
    AddTokenKeys(t, row);
    AddUserKeys(t.(refreshTokens := t.refreshTokens + [row]), user);
  }

  /**
   * The corrected Register commits once: on a store that satisfies its key
   * constraints it succeeds exactly when the name is free and both Ids are
   * unused, it then stores the user and its row together and keeps every
   * row's owner a user, and on failure it stores nothing.
   */
  lemma RegisterFixedAtomic(settings: JwtSettings, hasher: PasswordHasher, t: Tables, dto: RegisterDto, now: Time,
                            userId: Guid, salt: string, tokenId: Guid, random: Bytes32)
    requires KeysUnique(t)
    ensures var (r, s1) := RegisterFixed(settings, hasher, Fresh(t), dto, now, userId, salt, tokenId, random);
      var user := NewUser(dto, userId, hasher, salt);
      var row := NewRefreshToken(user, now, tokenId, random);
      && (r.Ok? <==>
            && (forall i :: 0 <= i < |t.users| ==> t.users[i].username != dto.username)
            && tokenId !in Seqs.Keys(t.refreshTokens, TokenKey)
            && userId !in Seqs.Keys(t.users, UserKey))
      && (r.Ok? ==>
            && s1.stored == t.(users := t.users + [user], refreshTokens := t.refreshTokens + [row])
            && r.value.refreshToken == row.token
            && r.value.refreshTokenExpiresAt == now + 604800
            && (TokenOwnersExist(t) ==> TokenOwnersExist(s1.stored)))
      && (r.Err? ==> s1.stored == t)
  {
    var user := NewUser(dto, userId, hasher, salt);
    var row := NewRefreshToken(user, now, tokenId, random);
    if forall i :: 0 <= i < |t.users| ==> t.users[i].username != dto.username {
      var t0 := t.(users := t.users + [user]);
      AddUserKeys(t, user);
      if userId !in Seqs.Keys(t.users, UserKey) {
        GenerateAndSaveAddsOneRow(Fresh(t).(tracked := t0), user, now, tokenId, random);
        var t1 := t0.(refreshTokens := t.refreshTokens + [row]);
        assert userId in Seqs.Keys(t1.users, UserKey) by {
          assert t1.users[|t.users|] == user;
        }
        if TokenOwnersExist(t) {
          forall r | r in t1.refreshTokens ensures r.userId in Seqs.Keys(t1.users, UserKey) {
            if r != row {
              assert r in t.refreshTokens;
              var j :| 0 <= j < |t.users| && t.users[j].id == r.userId;
              assert t1.users[j] == t.users[j];
            }
          }
        }
      } else {
        var j :| 0 <= j < |t.users| && t.users[j].id == userId;
        assert t0.users[j].id == t0.users[|t.users|].id;
        assert !KeysUnique(t0.(refreshTokens := t.refreshTokens + [row]));
      }
    }
  }

  /**
   * Login refuses, with no write, an unknown name, a password the stored hash
   * does not verify, and a user with no refresh-token row; and no failure
   * of Login leaves a write behind.
   */
  lemma LoginFailures(settings: JwtSettings, hasher: PasswordHasher, s: Scope, dto: LoginDto, now: Time,
                      id: Guid, random: Bytes32)
    ensures var users := s.tracked.users;
      var u := UserNamed(users, dto.username);
      && ((forall i :: 0 <= i < |users| ==> users[i].username != dto.username) ==>
            Login(settings, hasher, s, dto, now, id, random) == (Err(ApplicationException("User not found")), s))
      && (u < |users| && !hasher.verify(dto.password, users[u].passwordHash) ==>
            Login(settings, hasher, s, dto, now, id, random) == (Err(ApplicationException("Invalid password")), s))
      && (u < |users| && hasher.verify(dto.password, users[u].passwordHash)
          && (forall k :: 0 <= k < |s.tracked.refreshTokens| ==> s.tracked.refreshTokens[k].userId != users[u].id) ==>
            Login(settings, hasher, s, dto, now, id, random) == (Err(ApplicationException("Refresh token not found")), s))
      && (Login(settings, hasher, s, dto, now, id, random).0.Err? ==>
            Login(settings, hasher, s, dto, now, id, random).1.stored == s.stored)
  {
    var users := s.tracked.users;
    var u := UserNamed(users, dto.username);
    if u < |users| && hasher.verify(dto.password, users[u].passwordHash) {
      var rows := s.tracked.refreshTokens;
      var k := FirstTokenOf(rows, users[u].id);
      if k < |rows| {
        AuthSpec.FailureLeavesStoreUnchanged(settings, s, TokenDto(Compact(AccessToken(settings, users[u], now)), Some(rows[k])), now, id, random);
      }
    }
  }

  /** The user Login finds by name, and the index of that user's first stored row. */
  function LoginUser(t: Tables, dto: LoginDto): nat
  {
    UserNamed(t.users, dto.username)
  }

  function FirstRowOf(t: Tables, dto: LoginDto): nat
    requires LoginUser(t, dto) < |t.users|
  {
    FirstTokenOf(t.refreshTokens, t.users[LoginUser(t, dto)].id)
  }

  /**
   * A successful Login revokes the user's first stored row at `now` and adds
   * a new active row for that user, which is the value it returns together
   * with a fresh access token for the user, valid for one hour; nothing else
   * changes.
   */
  lemma LoginEffect(settings: JwtSettings, hasher: PasswordHasher, t: Tables, dto: LoginDto, now: Time,
                    id: Guid, random: Bytes32)
    requires Login(settings, hasher, Fresh(t), dto, now, id, random).0.Ok?
    ensures LoginUser(t, dto) < |t.users| && FirstRowOf(t, dto) < |t.refreshTokens|
    ensures var (r, s1) := Login(settings, hasher, Fresh(t), dto, now, id, random);
      var user := t.users[LoginUser(t, dto)];
      var row := NewRefreshToken(user, now, id, random);
      && hasher.verify(dto.password, user.passwordHash)
      && s1.stored == t.(refreshTokens := Revoke(t.refreshTokens, FirstRowOf(t, dto), now) + [row])
      && r.value.refreshToken == row.token
      && r.value.accessToken == Compact(AccessToken(settings, user, now))
      && r.value.expiresAt == now + 3600
      && row.userId == user.id && IsActive(row, now)
      && |UsersWithId(t.users, user.id)| == 1
  {
    var user := t.users[LoginUser(t, dto)];
    var k := FirstRowOf(t, dto);
    var pair := TokenDto(Compact(AccessToken(settings, user, now)), Some(t.refreshTokens[k]));
    AuthSpec.SubjectOfAccessToken(settings, user, now);
    AuthSpec.RotationEffect(settings, t, pair, now, id, random);
    TokenMatchOfFirst(t.refreshTokens, user.id);
    var matches := UsersWithId(t.users, user.id);
    assert user in matches;
    assert matches == [matches[0]];
  }

  /**
   * Login reports as the refresh token's expiry that of the row it redeemed,
   * not that of the row holding the value it returns, which expires seven
   * days from `now`.
   */
  lemma LoginReportsOldExpiry(settings: JwtSettings, hasher: PasswordHasher, t: Tables, dto: LoginDto, now: Time,
                              id: Guid, random: Bytes32)
    requires Login(settings, hasher, Fresh(t), dto, now, id, random).0.Ok?
    ensures LoginUser(t, dto) < |t.users| && FirstRowOf(t, dto) < |t.refreshTokens|
    ensures var (r, s1) := Login(settings, hasher, Fresh(t), dto, now, id, random);
      var rows1 := s1.stored.refreshTokens;
      && |rows1| > 0 && rows1[|rows1| - 1].token == r.value.refreshToken
      && rows1[|rows1| - 1].expires == now + 604800
      && r.value.refreshTokenExpiresAt == t.refreshTokens[FirstRowOf(t, dto)].expires
  {
    LoginEffect(settings, hasher, t, dto, now, id, random);
  }

  /**
   * Login cannot be repeated: after one succeeds, the same credentials are
   * refused at any later time, because the user's first stored row is now
   * the revoked one.
   */
  lemma SecondLoginFails(settings: JwtSettings, hasher: PasswordHasher, t: Tables, dto: LoginDto, now: Time,
                         id: Guid, random: Bytes32, now2: Time, id2: Guid, random2: Bytes32)
    requires Login(settings, hasher, Fresh(t), dto, now, id, random).0.Ok?
    ensures var t1 := Login(settings, hasher, Fresh(t), dto, now, id, random).1.stored;
      Login(settings, hasher, Fresh(t1), dto, now2, id2, random2)
        == (Err(SecurityTokenException("Invalid refresh token")), Fresh(t1))
  {
    LoginEffect(settings, hasher, t, dto, now, id, random);
    var t1 := Login(settings, hasher, Fresh(t), dto, now, id, random).1.stored;
    var user := t.users[LoginUser(t, dto)];
    var k := FirstRowOf(t, dto);
    var rows1 := t1.refreshTokens;
    assert t1.users == t.users;
    assert forall j :: 0 <= j < k ==> rows1[j] == t.refreshTokens[j];
    assert rows1[k] == t.refreshTokens[k].(revoked := Some(now));
    assert FirstTokenOf(rows1, user.id) == k;
    RevokedFirstRowRefused(settings, hasher, t1, dto, now2, id2, random2);
  }

  /** With the user's first row revoked, Login reaches the rotation and is refused there. */
  lemma RevokedFirstRowRefused(settings: JwtSettings, hasher: PasswordHasher, t: Tables, dto: LoginDto, now: Time,
                               id: Guid, random: Bytes32)
    requires LoginUser(t, dto) < |t.users|
    requires hasher.verify(dto.password, t.users[LoginUser(t, dto)].passwordHash)
    requires |UsersWithId(t.users, t.users[LoginUser(t, dto)].id)| == 1
    requires FirstRowOf(t, dto) < |t.refreshTokens| && t.refreshTokens[FirstRowOf(t, dto)].revoked.Some?
    ensures Login(settings, hasher, Fresh(t), dto, now, id, random)
      == (Err(SecurityTokenException("Invalid refresh token")), Fresh(t))
  {
    var user := t.users[LoginUser(t, dto)];
    AuthSpec.SubjectOfAccessToken(settings, user, now);
    TokenMatchOfFirst(t.refreshTokens, user.id);
  }

  /**
   * On a store that satisfies its key constraints, the corrected Login
   * succeeds exactly when the user exists, the password verifies and the new
   * Id is unused; it then adds one active row for the user and reports that
   * row's value and expiry.
   */
  lemma LoginFixedSucceedsIff(settings: JwtSettings, hasher: PasswordHasher, t: Tables, dto: LoginDto, now: Time,
                              id: Guid, random: Bytes32)
    requires KeysUnique(t)
    ensures var (r, s1) := LoginFixed(settings, hasher, Fresh(t), dto, now, id, random);
      && (r.Ok? <==>
            && LoginUser(t, dto) < |t.users|
            && hasher.verify(dto.password, t.users[LoginUser(t, dto)].passwordHash)
            && id !in Seqs.Keys(t.refreshTokens, TokenKey))
      && (r.Ok? ==>
            var row := NewRefreshToken(t.users[LoginUser(t, dto)], now, id, random);
            && s1.stored == t.(refreshTokens := t.refreshTokens + [row])
            && KeysUnique(s1.stored)
            && r.value.refreshToken == row.token
            && r.value.refreshTokenExpiresAt == row.expires == now + 604800)
      && (r.Err? ==> s1.stored == t)
  {
    if LoginUser(t, dto) < |t.users| {
      var user := t.users[LoginUser(t, dto)];
      GenerateAndSaveAddsOneRow(Fresh(t), user, now, id, random);
    }
  }

  /** The corrected Login can be repeated: a second login with the same credentials succeeds given an unused Id. */
  lemma LoginFixedRepeatable(settings: JwtSettings, hasher: PasswordHasher, t: Tables, dto: LoginDto, now: Time,
                             id: Guid, random: Bytes32, now2: Time, id2: Guid, random2: Bytes32)
    requires KeysUnique(t)
    requires LoginFixed(settings, hasher, Fresh(t), dto, now, id, random).0.Ok?
    requires id2 !in Seqs.Keys(LoginFixed(settings, hasher, Fresh(t), dto, now, id, random).1.stored.refreshTokens, TokenKey)
    ensures LoginFixed(settings, hasher, Fresh(LoginFixed(settings, hasher, Fresh(t), dto, now, id, random).1.stored),
                       dto, now2, id2, random2).0.Ok?
  {
    LoginFixedSucceedsIff(settings, hasher, t, dto, now, id, random);
    var t1 := LoginFixed(settings, hasher, Fresh(t), dto, now, id, random).1.stored;
    assert t1.users == t.users;
    LoginFixedSucceedsIff(settings, hasher, t1, dto, now2, id2, random2);
  }
}

module UserServices {
  import opened Results
  import opened Guids
  import opened Base64
  import opened Jwt
  import opened Entities
  import opened Store
  import opened Persistence
  import opened TokenServices
  import opened AuthServices
  import TokenSpec
  import UserSpec

  class UserService {
    const db: AppDbContext
    const tokenService: TokenService
    const authService: AuthService
    /** BCrypt, as `HashPassword` and `Verify`. */
    const hasher: PasswordHasher

    constructor(db: AppDbContext, tokenService: TokenService, authService: AuthService, hasher: PasswordHasher)
      ensures this.db == db && this.tokenService == tokenService && this.authService == authService
      ensures this.hasher == hasher
    {
      this.db := db;
      this.tokenService := tokenService;
      this.authService := authService;
      this.hasher := hasher;
    }

    /** The new user's Id, the BCrypt salt, and the row's Id and random bytes are drawn by the caller. */
    method Register(dto: RegisterDto, now: Time, userId: Guid, salt: string, tokenId: Guid, random: Bytes32)
      returns (r: Result<AuthResponse>)
      requires tokenService.db == db
      modifies db, db.database
      ensures (r, db.Current()) == UserSpec.Register(tokenService.settings, hasher, old(db.Current()), dto, now,
                                                     userId, salt, tokenId, random)
      ensures db.database.snapshot == old(db.database.snapshot)
    {
      if UserNamed(db.tracked.users, dto.username) < |db.tracked.users| {
        return Err(ApplicationException("User already exists"));
      }
      var user := UserSpec.NewUser(dto, userId, hasher, salt);
      var access := TokenSpec.AccessToken(tokenService.settings, user, now);
      var created := tokenService.GenerateAndSaveRefreshToken(user, now, tokenId, random);
      if created.Err? {
        return Err(created.error);
      }
      db.AddUser(user);
      var saved := db.SaveChanges();
      if saved.Err? {
        return Err(saved.error);
      }
      r := Ok(AuthResponse(Compact(access), now + UserSpec.ReportedAccessLifetime, created.value.token,
                           now + TokenSpec.RefreshTokenLifetime));
    }

    method Login(dto: LoginDto, now: Time, id: Guid, random: Bytes32) returns (r: Result<AuthResponse>)
      requires tokenService.db == db && authService.db == db && authService.tokenService == tokenService
      modifies db, db.database
      ensures (r, db.Current()) == UserSpec.Login(tokenService.settings, hasher, old(db.Current()), dto, now, id, random)
      ensures db.database.snapshot == old(db.database.snapshot)
    {
      var users := db.tracked.users;
      var u := UserNamed(users, dto.username);
      if u == |users| {
        return Err(ApplicationException("User not found"));
      }
      var user := users[u];
      if !hasher.verify(dto.password, user.passwordHash) {
        return Err(ApplicationException("Invalid password"));
      }
      var rows := db.tracked.refreshTokens;
      var k := FirstTokenOf(rows, user.id);
      if k == |rows| {
        return Err(ApplicationException("Refresh token not found"));
      }
      var refreshToken := rows[k];
      var pair := TokenDto(Compact(TokenSpec.AccessToken(tokenService.settings, user, now)), Some(refreshToken));
      var changed := authService.RefreshToken(pair, now, id, random);
      if changed.Err? {
        return Err(changed.error);
      }
      r := Ok(AuthResponse(changed.value.accessToken, now + UserSpec.ReportedAccessLifetime,
                           changed.value.refreshToken.value.token, refreshToken.expires));
    }
  }
}

# OrderMeow: refresh-token lifecycle, owner-scoped orders and a two-tier cache

This Dafny project models the service layer of OrderMeow, an ASP.NET order API, and proves properties of it.

**Refresh-token lifecycle.** The store holds three tables, Users, RefreshTokens and Orders, each keyed by `Id`. The model covers:

- `TokenService`: mints access tokens, and mints and saves refresh tokens.
- `AuthService.RefreshTokenAsync`: rotation with no role check and no transaction. It persists the successor through TokenService.
- `JwtService.RefreshTokenPairAsync`: transactional rotation with a role check. It never stores the successor it returns.
- `JwtService.InvalidateUserTokensAsync`: deletes all of a user's refresh-token rows.
- `JwtService.GetPrincipalFromToken`: pins the token's algorithm to HS256 (section 3.2 of RFC 7518).
- `UserService.RegisterAsync` and `LoginAsync`, which orchestrate the calls above.

**Orders.** `OrderService` does create, list, read, update, delete and set-status on a user's orders. Every lookup is guarded by the pair (order Id, owner Id). Create runs in a transaction that also publishes a message to a queue.

**Cache.** `CacheService` is a memory cache in front of a distributed cache. Reads go to memory first and promote distributed hits into memory. Writes and removals go to both tiers.

## Layout

Each service file has two modules:

- **A specification module** (`TokenSpec`, `AuthSpec`, `JwtSpec`, `UserSpec`, `OrderSpec`, `CacheSpec`). Its pure functions follow the C# method step by step: the same checks in the same order, the same exception messages, the same constants. The lemmas about those functions state the properties.
- **A class module** (`TokenServices`, `AuthServices`, `JwtServices`, `UserServices`, `OrderServices`, `CacheServices`). It holds one class per service, with the same fields. Each method drives an `AppDbContext` object and proves that its result and the new state are exactly what the specification function gives for the old state.

Shared modules:

- `Store` and `Persistence` model the database (`persistence.dfy`).
  - `Store.Scope` pairs a request's tracked view of the tables with the stored tables.
  - `SaveChanges` commits the tracked view exactly when every primary key is unique. Otherwise it throws `DbUpdateException` and commits nothing.
  - A transaction keeps a snapshot of the stored tables. Rollback restores the snapshot.
- `Jwt` (`jwt.dfy`) models JWTs as symbolic values. A compact token *is* the token it serialises, its signature records its key, and `ValidateToken` throws in the cases the handler does.
- `Guids` and `Base64` are concrete. They cover `Guid.ToString()`, `Guid.TryParse` (surrounding white space trimmed, then the "D", "N", "B" and "P" formats), and `Convert.ToBase64String` (section 4 of RFC 4648), with `TryParse(Format(g)) == Some(g)` and `Decode(Encode(b)) == Some(b)` proved.
- `Entities` holds the rows, enums, DTOs and settings.
- `Chars` holds `char.IsWhiteSpace` and `string.Trim`.
- `Seqs` holds the LINQ helpers.

Inputs that stand in for I/O:

- Each request has one clock reading, `now`, in whole seconds.
- The random choices are parameters: `Guid.NewGuid` values, the 32 random bytes, and the BCrypt salt.
- BCrypt is a pair of function values, `PasswordHasher`. The hasher's one promise is the ghost predicate `Sound`: a password verifies against each of its hashes.
- Whether the message broker accepts a message is a parameter.

## Model

| member | source | states |
|---|---|---|
| `Jwt.PrincipalOnlyForPinnedAlgorithm` | src/OrderMeow.Infrastructure/Services/JwtService.cs:125-143 | A principal is returned exactly when the token is a compact JWT signed with the configured key and its header `alg` is HS256. The principal carries that token's claims. TokenService.cs:63-82 is the same code. |
| `Jwt.BlankTokenRejected` | src/OrderMeow.Infrastructure/Services/JwtService.cs:125-143 | A null or whitespace-only token never yields a principal. |
| `Jwt.FindFirst` | src/OrderMeow.Infrastructure/Services/AuthService.cs:28 | Returns a value exactly when some claim has the type. The value is that of the first claim of that type. |
| `Guids.TryParseFormat` | src/OrderMeow.Infrastructure/Services/AuthService.cs:28-32 | The Id written into `sub` by `user.Id.ToString()` parses back to that Id. |
| `Guids.PaddedFormatParses` | src/OrderMeow.Infrastructure/Services/AuthService.cs:29 | A printed Id with white space on either side still parses to that Id, as `Guid.TryParse` trims its input. JwtService.cs:75 makes the same call. |
| `Chars.Trimmed` | src/OrderMeow.Infrastructure/Services/AuthService.cs:29 | The trimmed string is a piece of the input whose first and last characters are not white space, and everything cut off on either side is white space. |
| `Chars.TrimPadded` | src/OrderMeow.Infrastructure/Services/AuthService.cs:29 | Trimming removes exactly the white space around a string whose ends are not white space. |
| `Guids.FormatInjective` | src/OrderMeow.Infrastructure/Services/CacheService.cs:53 | Different Ids have different string forms. |
| `Base64.DecodeEncode` | src/OrderMeow.Infrastructure/Services/TokenService.cs:53 | Decoding the Base 64 text of any bytes gives those bytes back. |
| `Base64.Encode32` | src/OrderMeow.Infrastructure/Services/TokenService.cs:47-53 | The text of 32 random bytes is 44 characters and ends in one `=`. |
| `Base64.EncodeInjective` | src/OrderMeow.Infrastructure/Services/TokenService.cs:53 | Different bytes give different token values. |
| `TokenSpec.AccessTokenClaims` | src/OrderMeow.Infrastructure/Services/TokenService.cs:25-43 | The access token carries exactly `sub` = user Id and `unique_name` = user name, with no role. It expires `ExpiryMinutes` minutes after `now` and its alg is HS256. |
| `TokenSpec.AccessTokenIdentifiesUser` | src/OrderMeow.Infrastructure/Services/TokenService.cs:63-82 | The expired-token extractor accepts the token. Its NameIdentifier parses to the user's Id, its Name is the user name, and it has no Role claim. |
| `TokenSpec.NewRefreshTokenShape` | src/OrderMeow.Infrastructure/Services/TokenService.cs:45-57 | The new row has the fresh Id, `UserId` = user Id, `Created` = now and `Expires` = now + 7 days. It is active, and its value is 44 Base 64 characters. |
| `TokenSpec.TokenValueInjective` | src/OrderMeow.Infrastructure/Services/TokenService.cs:47-53 | Token values from different random bytes differ. |
| `TokenSpec.GenerateAndSaveAddsOneRow` | src/OrderMeow.Infrastructure/Services/TokenService.cs:45-61 | If the keys are unique, the save succeeds exactly when the new Id is unused. It then stores exactly the tracked tables plus that one row, and the row is returned. On failure it throws `DbUpdateException` and stores nothing. |
| `TokenServices.TokenService.GenerateAndSaveRefreshToken` | src/OrderMeow.Infrastructure/Services/TokenService.cs:45-61 | The method's result and new database state are those of `TokenSpec.GenerateAndSave`. |
| `AuthSpec.RefreshToken` | src/OrderMeow.Infrastructure/Services/AuthService.cs:21-58 | A successful rotation returns a compact access token and a refresh-token row. |
| `AuthSpec.SubjectOfAccessToken` | src/OrderMeow.Infrastructure/Services/AuthService.cs:23-32 | The subject read back from a TokenService access token is the user it was minted for. |
| `AuthSpec.RotationFailures` | src/OrderMeow.Infrastructure/Services/AuthService.cs:23-45 | Each failed check throws its own message and writes nothing: an empty or non-GUID subject, no such user, or no active row with this value and owner. A null refresh token throws `InvalidOperationException`, because the query evaluates the value it captures before reading any row. |
| `AuthSpec.FailureLeavesStoreUnchanged` | src/OrderMeow.Infrastructure/Services/AuthService.cs:21-58 | Every failure leaves the stored tables unchanged. |
| `AuthSpec.RotationSucceedsIff` | src/OrderMeow.Infrastructure/Services/AuthService.cs:33-52 | If the keys are unique, rotation succeeds exactly when the subject is one user, the presented row is found and active, and the successor's Id is new. The role claim plays no part. |
| `AuthSpec.RotationEffect` | src/OrderMeow.Infrastructure/Services/AuthService.cs:46-57 | After a success the stored tables differ only in two ways: the presented row is revoked at `now`, and one active row owned by the subject is appended. That new row is the one returned, together with an access token for the user. |
| `AuthSpec.ReplayFails` | src/OrderMeow.Infrastructure/Services/AuthService.cs:38-46 | After a success, presenting the same value for the same subject fails at any later time with "Invalid refresh token" and writes nothing. |
| `AuthServices.AuthService.RefreshToken` | src/OrderMeow.Infrastructure/Services/AuthService.cs:21-58 | Result and new database state are those of `AuthSpec.RefreshToken`. |
| `JwtSpec.AccessTokenIdentifiesUser` | src/OrderMeow.Infrastructure/Services/JwtService.cs:27-46 | JwtService's access token is accepted. Its subject parses to the user's Id and it carries the user name and the stored role. It expires `ExpiryMinutes` minutes after `now`. |
| `JwtSpec.RefreshTokenShape` | src/OrderMeow.Infrastructure/Services/JwtService.cs:48-61 | The generated row belongs to the user, was created at `now`, is unrevoked, and expires `RefreshTokenExpiryDays` days later. Its value is 44 characters. |
| `JwtSpec.InvalidTokenDataRejected` | src/OrderMeow.Infrastructure/Services/JwtService.cs:65-68 | A null refresh token or a blank access token throws "Invalid token data" before the store is read. |
| `JwtSpec.SubjectNotGuidRejected` | src/OrderMeow.Infrastructure/Services/JwtService.cs:73-78 | A missing or non-GUID subject throws "Invalid user ID format" with no write. |
| `JwtSpec.TransactionChecks` | src/OrderMeow.Infrastructure/Services/JwtService.cs:83-103 | Inside the transaction each failure throws its own message and the tables are rolled back. The failures are: a missing user, a role claim that differs from the stored role, no row with this value and owner, and a revoked or expired row. |
| `JwtSpec.FailureLeavesStoreUnchanged` | src/OrderMeow.Infrastructure/Services/JwtService.cs:63-123 | Every failure leaves the stored tables as they were, through rollback inside the transaction. |
| `JwtSpec.RotationSucceedsIff` | src/OrderMeow.Infrastructure/Services/JwtService.cs:83-110 | If the keys are unique, rotation succeeds exactly when every check passes. In the corrected form, it also needs the successor's Id to be new. |
| `JwtSpec.RotationEffect` | src/OrderMeow.Infrastructure/Services/JwtService.cs:105-116 | After a success, the only stored change is that the presented row's `Revoked` becomes `now`. In the corrected form, the successor row is also appended. The user row is untouched. The returned pair is for the looked-up user. |
| `JwtSpec.UnusableRowRefused` | src/OrderMeow.Infrastructure/Services/JwtService.cs:94-103 | A value that names no usable row of its subject is refused with no write. |
| `JwtSpec.UnknownValueRefused` | src/OrderMeow.Infrastructure/Services/JwtService.cs:94-98 | When the user and role checks pass but no row holds the value, the error is "Invalid refresh token". |
| `JwtSpec.ReplayFails` | src/OrderMeow.Infrastructure/Services/JwtService.cs:100-105 | After a success, presenting the same value again for the same subject fails at any later time with no write. |
| `JwtSpec.SuccessorNotRedeemable` | src/OrderMeow.Infrastructure/Services/JwtService.cs:105-110 | The pair a rotation returns cannot itself be rotated: its row was never stored. |
| `JwtSpec.PersistedSuccessorRedeemable` | src/OrderMeow.Infrastructure/Services/JwtService.cs:105-110 | If the successor is added before the save, the returned pair can be rotated while it is unexpired. |
| `JwtSpec.InvalidateRemovesExactlyUserRows` | src/OrderMeow.Infrastructure/Services/JwtService.cs:151-156 | Bulk deletion removes exactly the user's rows, keeps every other row and table, and keeps the keys unique. |
| `JwtSpec.InvalidateIdempotent` | src/OrderMeow.Infrastructure/Services/JwtService.cs:151-156 | Invalidating twice is the same as invalidating once. |
| `JwtServices.JwtService.RefreshTokenPair` | src/OrderMeow.Infrastructure/Services/JwtService.cs:63-123 | Result and new database state are those of `JwtSpec.RefreshTokenPair`, and no transaction is left open. |
| `JwtServices.JwtService.RotateInTransaction` | src/OrderMeow.Infrastructure/Services/JwtService.cs:80-122 | The transaction body commits or rolls back as `JwtSpec.InTransaction` says. |
| `JwtServices.JwtService.InvalidateUserTokens` | src/OrderMeow.Infrastructure/Services/JwtService.cs:151-156 | The rows are deleted in the database, as `JwtSpec.InvalidateUserTokens` says, and later queries through the context no longer return them. |
| `UserSpec.DuplicateUsernameRejected` | src/OrderMeow.Infrastructure/Services/UserService.cs:31-37 | A name some user already has throws "User already exists" and changes nothing. |
| `UserSpec.RegisterSucceedsIff` | src/OrderMeow.Infrastructure/Services/UserService.cs:31-50 | If the keys are unique, Register succeeds exactly when the name is free and both new Ids are unused. |
| `UserSpec.RegisterEffect` | src/OrderMeow.Infrastructure/Services/UserService.cs:39-58 | A success stores exactly one new user (the given name, the password's hash, the default role) and one active row owned by it. The response carries that row's value, `ExpiresAt` = now + 1 h and `RefreshTokenExpiresAt` = now + 7 d. With a sound hasher the stored hash verifies the password. |
| `UserSpec.RegisterCommitsOrphanRow` | src/OrderMeow.Infrastructure/Services/UserService.cs:46-50 | Register's first commit stores the refresh-token row while its owner is not yet a user. |
| `UserSpec.RegisterNotAtomic` | src/OrderMeow.Infrastructure/Services/UserService.cs:47-50 | When the user's save is refused, the token row from the first commit stays stored. |
| `UserSpec.RegisterFixedAtomic` | src/OrderMeow.Infrastructure/Services/UserService.cs:39-58 | Corrected Register: it succeeds under the same conditions and stores the user and its row together, the owner first. On failure it stores nothing. |
| `UserSpec.LoginFailures` | src/OrderMeow.Infrastructure/Services/UserService.cs:71-88 | "User not found", "Invalid password" and "Refresh token not found" are each thrown in their case with no write. No failure of Login leaves a write behind. |
| `UserSpec.LoginEffect` | src/OrderMeow.Infrastructure/Services/UserService.cs:84-101 | A successful Login revokes the user's first stored row and appends one active row for the user, whose value it returns. The response's `AccessToken` is a new access token for the user and its `ExpiresAt` is now + 1 h. Nothing else changes. |
| `UserSpec.LoginReportsOldExpiry` | src/OrderMeow.Infrastructure/Services/UserService.cs:97-103 | The reported `RefreshTokenExpiresAt` is the redeemed row's expiry. The row holding the returned value expires at now + 7 d. |
| `UserSpec.SecondLoginFails` | src/OrderMeow.Infrastructure/Services/UserService.cs:84-95 | After one successful Login, the same credentials fail at any later time with "Invalid refresh token". |
| `UserSpec.RevokedFirstRowRefused` | src/OrderMeow.Infrastructure/Services/UserService.cs:84-95 | When the user's first row is revoked, Login reaches the rotation and is refused there with no write. |
| `UserSpec.LoginFixedSucceedsIff` | src/OrderMeow.Infrastructure/Services/UserService.cs:67-103 | Corrected Login succeeds exactly when the user exists, the password verifies and the new Id is unused. It adds one active row and reports that row's value and expiry. |
| `UserSpec.LoginFixedRepeatable` | src/OrderMeow.Infrastructure/Services/UserService.cs:67-103 | With corrected Login, a second login with the same credentials succeeds. |
| `UserServices.UserService.Register` | src/OrderMeow.Infrastructure/Services/UserService.cs:27-65 | Result and new database state are those of `UserSpec.Register`. |
| `UserServices.UserService.Login` | src/OrderMeow.Infrastructure/Services/UserService.cs:67-110 | Result and new database state are those of `UserSpec.Login`. |
| `Messaging.MessageQueue.Publish` | src/OrderMeow.Infrastructure/Services/OrderService.cs:47 | The broker either appends the message to what it has accepted, or the call throws and it accepts nothing. |
| `OrderSpec.CreateOrderEffect` | src/OrderMeow.Infrastructure/Services/OrderService.cs:22-57 | If the keys are unique, Create succeeds exactly when the broker accepts and the Id is unused. It then stores one order with the given title, description and owner, status Created and `CreatedAt` = now, returns its Id, and publishes one message with that order's Id, owner, time and title. On failure it rolls back and publishes nothing. |
| `OrderSpec.CreateThenGet` | src/OrderMeow.Infrastructure/Services/OrderService.cs:22-57 | A created order is then read back by its Id and owner with status "Created". |
| `OrderSpec.GetAllOrdersExactlyOwn` | src/OrderMeow.Infrastructure/Services/OrderService.cs:59-73 | The list holds the projection of every order of the user, in table order, and nothing else. |
| `OrderSpec.GetAllOrdersIgnoresOthers` | src/OrderMeow.Infrastructure/Services/OrderService.cs:59-73 | An order of another user never changes the list. |
| `OrderSpec.GetOrderByIdScoped` | src/OrderMeow.Infrastructure/Services/OrderService.cs:75-89 | The result is null exactly when no order has both the Id and the owner. Otherwise it is such an order's projection. If the keys are unique, another user's order is never returned. |
| `OrderSpec.UpdateOrderEffect` | src/OrderMeow.Infrastructure/Services/OrderService.cs:91-105 | If the keys are unique, Update succeeds exactly when the user owns the order. It then changes only that order's title and description. Otherwise it throws "Order not found" with no change. |
| `OrderSpec.UpdateThenGet` | src/OrderMeow.Infrastructure/Services/OrderService.cs:91-105 | Reading the order back after an update gives the new title and description and the rest unchanged. |
| `OrderSpec.DeleteOrderEffect` | src/OrderMeow.Infrastructure/Services/OrderService.cs:107-119 | If the keys are unique, Delete succeeds exactly when the user owns the order. It then removes only that order, which can no longer be read. Otherwise it throws "Order not found" with no change. |
| `OrderSpec.SetOrderStatusEffect` | src/OrderMeow.Infrastructure/Services/OrderService.cs:121-133 | If the keys are unique, SetStatus succeeds exactly when the user owns the order. It then changes only that order's status, and a read shows the status's name. Otherwise it throws "Order not found" with no change. |
| `OrderServices.OrderService.CreateOrder` | src/OrderMeow.Infrastructure/Services/OrderService.cs:22-57 | Result, new database state and published messages are those of `OrderSpec.CreateOrder`, and the transaction is closed. |
| `OrderServices.OrderService.UpdateOrder` | src/OrderMeow.Infrastructure/Services/OrderService.cs:91-105 | Result and new state are those of `OrderSpec.UpdateOrder`. |
| `OrderServices.OrderService.DeleteOrder` | src/OrderMeow.Infrastructure/Services/OrderService.cs:107-119 | Result and new state are those of `OrderSpec.DeleteOrder`. |
| `OrderServices.OrderService.SetOrderStatus` | src/OrderMeow.Infrastructure/Services/OrderService.cs:121-133 | Result and new state are those of `OrderSpec.SetOrderStatus`. |
| `CacheSpec.MemoryHitIgnoresDistributed` | src/OrderMeow.Infrastructure/Services/CacheService.cs:21-24 | A memory hit is returned whatever the distributed tier holds, and nothing changes. |
| `CacheSpec.MissReturnsDefault` | src/OrderMeow.Infrastructure/Services/CacheService.cs:25-29 | A key in neither tier reads as default and nothing changes. |
| `CacheSpec.DistributedHitPromoted` | src/OrderMeow.Infrastructure/Services/CacheService.cs:30-32 | A distributed hit is returned and copied into memory. Other keys and the distributed tier are untouched, and the next read hits memory. |
| `CacheSpec.SetThenGet` | src/OrderMeow.Infrastructure/Services/CacheService.cs:35-45 | After a set, reading the key gives the value. Other keys read as before. |
| `CacheSpec.RemoveThenGet` | src/OrderMeow.Infrastructure/Services/CacheService.cs:47-51 | After a removal, reading the key gives default. Other keys read as before. |
| `CacheSpec.RemoveIdempotent` | src/OrderMeow.Infrastructure/Services/CacheService.cs:47-51 | Removing twice is the same as removing once. |
| `CacheSpec.CacheKeyShape` | src/OrderMeow.Infrastructure/Services/CacheService.cs:53 | The key is "OrderMeow_" followed by the 36-character Id. Different users get different keys. |
| `CacheSpec.GetOrCreateHit` | src/OrderMeow.Infrastructure/Services/CacheService.cs:56-60 | A non-null cached value is returned without calling the factory. |
| `CacheSpec.GetOrCreateMiss` | src/OrderMeow.Infrastructure/Services/CacheService.cs:62-64 | On a miss or a cached null, the factory is called once and its result is returned and stored. The next read returns it, and when it is not null the next call does not call the factory. |
| `CacheServices.CacheService.Get` | src/OrderMeow.Infrastructure/Services/CacheService.cs:19-33 | New tiers and result are those of `CacheSpec.Get`. |
| `CacheServices.CacheService.Set` | src/OrderMeow.Infrastructure/Services/CacheService.cs:35-45 | New tiers are those of `CacheSpec.Set`. |
| `CacheServices.CacheService.Remove` | src/OrderMeow.Infrastructure/Services/CacheService.cs:47-51 | New tiers are those of `CacheSpec.Remove`. |
| `CacheServices.CacheService.GetOrCreate` | src/OrderMeow.Infrastructure/Services/CacheService.cs:54-82 | Result and tiers are those of `CacheSpec.GetOrCreate`. The factory-call counter goes up by one exactly when the factory is called. |

## Left out

- Async/await, concurrency and transaction isolation are not modelled. This includes concurrent rotations of one token, and the eviction callback that re-populates the cache on a background task (CacheService.cs:64-80).
- JWT encoding, signing and HMAC are symbolic. The handler's outbound map writes `HmacSha256Signature` as `alg` "HS256" and `ClaimTypes.Role` as "role"; the model builds tokens that way. A secret key too short for HMAC-SHA256, which makes token creation throw, is not modelled.
- `RandomNumberGenerator`, `Guid.NewGuid` and BCrypt's salt are parameters. BCrypt is a pair of function values: the model proves what follows from `Sound`, and nothing about real hash strength.
- Time is one integer `now` per request, in seconds. AuthService.cs:46 stamps `Revoked` with local `DateTime.Now` while every other site uses UTC; the model uses the same `now` for both, so a time-zone offset in that stamp is not captured.
- The model assumes the semantics of types the repository does not show:
  - The RefreshToken entity is not shown. `IsActive` is taken to mean "`Revoked` unset and `now` < `Expires`". Its `Id` is taken to come from a `Guid.NewGuid` initializer, like the other entities'.
  - `RoleType` is not shown. It is taken to be `User` (the default, value 0) or `Admin`.
  - The repository has two `User` classes: the context's has `Role`, and the one UserService and TokenService compile against does not. The model has one user row with a role, and Register stores the default role.
- Store assumptions:
  - `SaveChanges` enforces primary keys only. The foreign keys and cascades of AppDbContext.cs:15-25 are not enforced; showing what enforcing them would do is the point of `UserSpec.RegisterCommitsOrphanRow`.
  - Queries read the context's tracked view. At every query the services make, that view equals the stored tables.
  - `FirstOrDefault` and `ToList` without `OrderBy` are taken to return rows in insertion order. This covers the order of the list from `OrderSpec.GetAllOrders` (OrderService.cs:59-73).
  - `ExecuteDeleteAsync` bypasses the change tracker, so entries it already held stay tracked. The model removes the deleted rows from what later queries see, and does not model those leftover entries.
  - `AsNoTracking` is not modelled separately, since no service writes a row it read untracked.
- The re-add of an already-tracked row at AuthService.cs:49 is modelled as a no-op (`Persistence.AppDbContext.ReAddRefreshToken`); real EF may reject that re-add instead.
- Some branches cannot be reached in the model and have no member:
  - The `principal == null` branches at AuthService.cs:24-27 and JwtService.cs:70-71: `ValidateToken` throws rather than return null.
  - In GetOrCreate, a value-type `T`, whose default is never null.
- `Guids.TryParse`: does not accept the "X" format (`{0x…,0x…,0x…,{0x…,…}}`), nor the legacy `+` and `0x` prefixes that .NET tolerates inside the components of the "D" format. The services only ever parse Ids they printed themselves.
- The `_logger.LogError` calls before the rethrows at UserService.cs:62 and UserService.cs:107 are left out. Logging has no effect on the result or the store.
- The queries `GetAllOrdersAsync` and `GetOrderByIdAsync` are functions over the stored tables (`OrderSpec.GetAllOrders`, `OrderSpec.GetOrderById`), with no class method, because they only read.
- Cache expiry, size limits and eviction are not modelled. JSON serialisation across the tiers is the identity, and the cache holds values of one type.
- The broker is modelled as one outcome, accept or throw. `CommitTransaction` is taken never to fail, so a message published before a failing commit is not modelled.
- The foreign key from Orders to Users is not enforced either, so Create for an Id that names no user succeeds in the model.
- Program.cs registers no `IJwtService`. JwtService is modelled as written, although nothing shown calls it.

## Findings

| source | as written | input that shows it | evidently intended | confidence | as-written member | corrected member |
|---|---|---|---|---|---|---|
| src/OrderMeow.Infrastructure/Services/JwtService.cs:105-110 | The rotation builds a successor row, returns it, and never adds it to RefreshTokens. | Any successful rotation followed by a rotation with the returned pair: "Invalid refresh token". | The successor is stored, so the returned pair can be rotated in turn. | not executed | `JwtSpec.SuccessorNotRedeemable` (on `JwtSpec.RefreshTokenPair`) | `JwtSpec.PersistedSuccessorRedeemable` (on `JwtSpec.RefreshTokenPairPersisted`) |
| src/OrderMeow.Infrastructure/Services/UserService.cs:84-95 | Login redeems the user's first stored row, found with no active filter, so once that row is revoked every later Login fails. | Register, Login, Login with the same credentials: the second Login throws "Invalid refresh token". | A correct password always logs in, issuing a new refresh token. | not executed | `UserSpec.SecondLoginFails` (on `UserSpec.Login`) | `UserSpec.LoginFixedRepeatable` (on `UserSpec.LoginFixed`) |
| src/OrderMeow.Infrastructure/Services/UserService.cs:102 | Login reports the redeemed row's `Expires` as `RefreshTokenExpiresAt`. | Login with a row created a day before `now`: the reported expiry is 6 days ahead, while the returned token expires 7 days ahead. | The expiry of the token returned. | not executed | `UserSpec.LoginReportsOldExpiry` (on `UserSpec.Login`) | `UserSpec.LoginFixedSucceedsIff` (on `UserSpec.LoginFixed`) |
| src/OrderMeow.Infrastructure/Services/UserService.cs:46-50 | Register saves the refresh-token row in one commit, then the user in a second, with no transaction. | A new name: the first commit stores a row whose owner is not a user, which the PostgreSQL foreign key of AppDbContext.cs:21-25 refuses. Or a user Id that is taken: the second save fails and the row stays. | The user and its row are stored together, the owner first, and nothing is stored on failure. | not executed | `UserSpec.RegisterCommitsOrphanRow`, `UserSpec.RegisterNotAtomic` (on `UserSpec.Register`) | `UserSpec.RegisterFixedAtomic` (on `UserSpec.RegisterFixed`) |

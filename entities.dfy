/**
 * The entities, requests and responses the services exchange. Times are whole
 * seconds on one clock; a user's role and an order's status are the enums of
 * the same names.
 */
module Entities {
  import opened Results
  import opened Guids
  import Jwt

  type Time = int

  const SecondsPerMinute: int := 60
  const SecondsPerHour: int := 3600
  const SecondsPerDay: int := 86400

  /** `RoleType`; a user created without a role has the first one. */
  datatype RoleType = UserRole | AdminRole

  /** `RoleType.ToString()`. */
  function RoleName(r: RoleType): string
  {
    match r
    case UserRole => "User"
    case AdminRole => "Admin"
  }

  datatype User = User(id: Guid, username: string, passwordHash: string, role: RoleType)

  /** A row of the RefreshTokens table: the token value and who owns it, with its lifetime. */
  datatype RefreshToken = RefreshToken(
    id: Guid,
    token: string,
    userId: Guid,
    created: Time,
    expires: Time,
    revoked: Option<Time>)

  /** `RefreshToken.IsActive`: not revoked and not yet expired. */
  predicate IsActive(t: RefreshToken, now: Time)
  {
    t.revoked.None? && now < t.expires
  }

  datatype OrderStatus = Created | Processing | Completed | Cancelled

  /** `OrderStatus.ToString()`. */
  function StatusName(s: OrderStatus): string
  {
    match s
    case Created => "Created"
    case Processing => "Processing"
    case Completed => "Completed"
    case Cancelled => "Cancelled"
  }

  datatype Order = Order(
    id: Guid,
    title: string,
    description: string,
    createdAt: Time,
    status: OrderStatus,
    userId: Guid)

  datatype OrderDto = OrderDto(title: string, description: string)

  datatype OrderResponse = OrderResponse(
    id: Guid,
    title: string,
    description: string,
    createdAt: Time,
    status: string)

  datatype OrderCreatedMessage = OrderCreatedMessage(orderId: Guid, userId: Guid, createdAt: Time, title: string)

  datatype RegisterDto = RegisterDto(username: string, password: string)

  datatype LoginDto = LoginDto(username: string, password: string)

  /** An access token and the refresh-token entity presented with it (which may be null). */
  datatype TokenDto = TokenDto(accessToken: Jwt.TokenString, refreshToken: Option<RefreshToken>)

  datatype AuthResponse = AuthResponse(
    accessToken: Jwt.TokenString,
    expiresAt: Time,
    refreshToken: string,
    refreshTokenExpiresAt: Time)

  /** The JWT settings both token services are configured with. */
  datatype JwtSettings = JwtSettings(
    secretKey: string,
    issuer: string,
    audience: string,
    expiryMinutes: int,
    refreshTokenExpiryDays: int)

  /**
   * BCrypt: `hash(password, salt)` is `HashPassword` with the salt it draws,
   * `verify(password, hash)` is `Verify`.
   */
  datatype PasswordHasher = PasswordHasher(hash: (string, string) -> string, verify: (string, string) -> bool)

  /** What BCrypt promises: a password verifies against each of its hashes. */
  ghost predicate Sound(h: PasswordHasher)
  {
    forall password, salt :: h.verify(password, h.hash(password, salt))
  }
}

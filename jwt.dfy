/**
 * The JSON Web Tokens the services mint and read, as symbolic values: a token
 * presented in its compact serialisation is the `Token` it serialises, so its
 * header algorithm and claims can be read back; its signature records the key
 * it was made with. This stands in for JwtSecurityTokenHandler and the HMAC it
 * calls.
 */
module Jwt {
  import opened Results
  import opened Chars
  import Seqs

  /** `SecurityAlgorithms.HmacSha256`: "HS256", section 3.2 of RFC 7518. */
  const HmacSha256: string := "HS256"

  datatype Signature = Unsigned | Hmac(key: string)

  /** A claim as it is written in the token's payload, under its registered JWT name. */
  datatype JwtClaim = JwtClaim(name: string, value: string)

  datatype Token = Token(
    alg: string,
    payload: seq<JwtClaim>,
    issuer: string,
    audience: string,
    expires: int,
    signature: Signature)

  /**
   * A token string as a caller presents it: null, the compact serialisation of
   * a token, or any other text (which no token handler can read).
   */
  datatype TokenString = Null | Compact(token: Token) | Text(chars: string)

  /** `string.IsNullOrWhiteSpace`. A compact serialisation always holds two dots. */
  predicate IsNullOrWhiteSpace(s: TokenString)
  {
    match s
    case Null => true
    case Compact(_) => false
    case Text(chars) => forall i :: 0 <= i < |chars| ==> IsWhiteSpace(chars[i])
  }

  /** The claim types of a ClaimsPrincipal, after the handler's inbound claim-name mapping. */
  datatype ClaimType = NameIdentifier | Name | Role | Unmapped(name: string)

  /** The inbound mapping of the three registered names the services write; other names pass through. */
  function InboundClaimType(name: string): ClaimType
  {
    if name == "sub" then NameIdentifier
    else if name == "unique_name" then Name
    else if name == "role" then Role
    else Unmapped(name)
  }

  datatype Claim = Claim(kind: ClaimType, value: string)

  datatype Principal = Principal(claims: seq<Claim>)

  function PrincipalOf(payload: seq<JwtClaim>): (p: Principal)
    ensures |p.claims| == |payload|
    ensures forall i :: 0 <= i < |payload| ==>
      p.claims[i] == Claim(InboundClaimType(payload[i].name), payload[i].value)
  {
    Principal(seq(|payload|, i requires 0 <= i < |payload| =>
      Claim(InboundClaimType(payload[i].name), payload[i].value)))
  }

  /** `ClaimsPrincipal.FindFirst(type)?.Value`. */
  function FindFirst(p: Principal, kind: ClaimType): (r: Option<string>)
    ensures r.Some? <==> exists i :: 0 <= i < |p.claims| && p.claims[i].kind == kind
    ensures r.Some? ==> exists i :: 0 <= i < |p.claims| && p.claims[i] == Claim(kind, r.value) &&
                                     forall j :: 0 <= j < i ==> p.claims[j].kind != kind
  {
    var i := Seqs.FirstIndex(p.claims, (c: Claim) => c.kind == kind);
    if i < |p.claims| then Some(p.claims[i].value) else None
  }

  /**
   * `JwtSecurityTokenHandler.ValidateToken` with the issuer, audience and
   * lifetime checks switched off and `key` as the only signing key: it throws
   * on a null or empty string, on text that is not a token, and on a token
   * not signed with `key`.
   */
  function ValidateToken(key: string, s: TokenString): Result<(Principal, Token)>
  {
    match s
    case Null => Err(ArgumentNullException)
    case Text(chars) =>
      if chars == [] then Err(ArgumentNullException)
      else Err(SecurityTokenException("malformed token"))
    case Compact(t) =>
      if t.signature != Hmac(key) then Err(SecurityTokenException("signature validation failed"))
      else Ok((PrincipalOf(t.payload), t))
  }

  /**
   * `GetPrincipalFromToken` and `GetClaimsPrincipalFromExpiredToken`, which
   * are the same code: validate as above, then refuse any token whose header
   * algorithm is not HS256.
   */
  function PrincipalFromToken(key: string, s: TokenString): Result<Principal>
  {
    match ValidateToken(key, s)
    case Err(e) => Err(e)
    case Ok((p, t)) =>
      if t.alg != HmacSha256 then Err(SecurityTokenException("Invalid token")) else Ok(p)
  }

  /**
   * A principal comes back exactly for a compact token signed with the key
   * whose header algorithm is HS256, and it carries that token's claims.
   */
  lemma PrincipalOnlyForPinnedAlgorithm(key: string, s: TokenString)
    ensures PrincipalFromToken(key, s).Ok? <==>
      s.Compact? && s.token.signature == Hmac(key) && s.token.alg == HmacSha256
    ensures PrincipalFromToken(key, s).Ok? ==> PrincipalFromToken(key, s).value == PrincipalOf(s.token.payload)
  {
  }

  /** A whitespace-only or null access token is never accepted. */
  lemma BlankTokenRejected(key: string, s: TokenString)
    requires IsNullOrWhiteSpace(s)
    ensures PrincipalFromToken(key, s).Err?
  {
  }
}

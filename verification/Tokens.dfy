/** Access tokens under two keys. Signatures are ideal: a token is the key that signed it and its claims,
    so it verifies under exactly that key. Instants are nanoseconds; the claims' dates are whole seconds. */
module Tokens {
  import opened Base
  import opened TenantDomain
  import opened Uuids

  type Secret = string

  const SECOND: nat := 1_000_000_000
  const PREVIEW_TOKEN_TTL: nat := 30 * 60 * SECOND

  const KIND_HUMAN := "human"
  const KIND_AGENT := "agent"

  /** Absent strings and lists are empty; id, subject, expiresAt are the registered claims jti, sub and exp. */
  datatype Claims = Claims(
    roles: seq<string>, tenantId: string, tenantRole: string, region: string, mfa: bool,
    delivery: bool, previewEntry: string,
    kind: string, agentId: string, principal: string, allowedTypes: seq<string>,
    id: string, subject: string, issuedAt: int, expiresAt: Option<int>, notBefore: Option<int>)

  datatype Token = Token(key: Secret, claims: Claims)

  datatype Signer = Signer(secret: Secret, deliverySecret: Secret, ttl: int, agentTTL: int) {
    function AgentLifetime(): int { if agentTTL > 0 then agentTTL else ttl }

    predicate DeliveryEnabled() { deliverySecret != "" }
  }

  /** A JWT numeric date: whole seconds. */
  function NumericDate(t: int): int { t / SECOND }

  // ---------------------------------------------------------------- issuing

  datatype IssueError = DeliveryDisabled | NotMintable | AgentCredentialUnset | AgentScopeUnset | RoleNotMintable

  datatype Issued = Token(token: Token) | Refused(error: IssueError)

  function IssueAccessToken(s: Signer, now: int, userId: Uuid, roles: seq<string>, tenantId: string, tenantRole: string,
                            region: string, mfa: bool): Token
  {
    Token.Token(s.secret,
                Claims(roles, tenantId, tenantRole, region, mfa, false, "", "", "", "", [],
                       "", Format(userId), NumericDate(now), Some(NumericDate(now + s.ttl)), None))
  }

  function DeliveryClaims(now: int, ttl: int, subject: Uuid, tenantSlug: string, previewEntry: string): Claims {
    Claims([], tenantSlug, "viewer", "", false, true, previewEntry, "", "", "", [],
           "", Format(subject), NumericDate(now), Some(NumericDate(now + ttl)), None)
  }

  function IssueDeliveryToken(s: Signer, now: int, serviceId: Uuid, tenantSlug: string): Issued {
    if !s.DeliveryEnabled() then Refused(DeliveryDisabled)
    else Issued.Token(Token.Token(s.deliverySecret, DeliveryClaims(now, s.ttl, serviceId, tenantSlug, "")))
  }

  function IssuePreviewToken(s: Signer, now: int, issuerId: Uuid, tenantSlug: string, entryId: Uuid): Issued {
    if !s.DeliveryEnabled() then Refused(DeliveryDisabled)
    else Issued.Token(Token.Token(s.deliverySecret,
                                  DeliveryClaims(now, PREVIEW_TOKEN_TTL, issuerId, tenantSlug, Format(entryId))))
  }

  /** An ordinary tenant credential. */
  predicate Mintable(minter: Claims) {
    minter.tenantId != "" && !minter.delivery && minter.previewEntry == "" && minter.kind == ""
  }

  /** The platform roles do not travel, the tenant is the minter's, the subject is the principal. */
  function AgentClaims(now: int, ttl: int, minter: Claims, principal: Uuid, credentialId: Uuid, agentId: string,
                       tenantRole: string, allowedTypes: seq<string>): Claims
  {
    Claims([], minter.tenantId, tenantRole, minter.region, false, false, "",
           KIND_AGENT, agentId, Format(principal), allowedTypes,
           Format(credentialId), Format(principal), NumericDate(now), Some(NumericDate(now + ttl)), None)
  }

  function IssueAgentToken(s: Signer, now: int, minter: Option<Claims>, credentialId: Uuid, agentId: string,
                           tenantRole: string, allowedTypes: seq<string>): Issued
  {
    if minter.None? || !Mintable(minter.value) then Refused(NotMintable)
    else if Parse(minter.value.subject).None? || agentId == "" then Refused(NotMintable)
    else if credentialId == NIL then Refused(AgentCredentialUnset)
    else if allowedTypes == [] then Refused(AgentScopeUnset)
    else if !CanMintAgentRole(minter.value.tenantRole, tenantRole) then Refused(RoleNotMintable)
    else Issued.Token(Token.Token(s.secret, AgentClaims(now, s.AgentLifetime(), minter.value,
                                                        Parse(minter.value.subject).value, credentialId, agentId,
                                                        tenantRole, allowedTypes)))
  }

  // ---------------------------------------------------------------- parsing

  datatype ParseError =
    | Invalid                  // wrong signature, expired or not yet valid
    | DeliveryFromMainKey | PreviewFromMainKey | NotDelivery | KindFromDeliveryKey
    | UnknownKind | NoAgentId | NoPrincipal | NoWhitelist | NoCredentialId

  datatype Parsed = Ok(claims: Claims) | Err(error: ParseError)

  /** Dates checked when present: strictly before exp, not before nbf. */
  predicate Live(c: Claims, now: int) {
    && (c.expiresAt.Some? ==> now < c.expiresAt.value * SECOND)
    && (c.notBefore.Some? ==> c.notBefore.value * SECOND <= now)
  }

  function ParseWith(t: Token, key: Secret, now: int): Parsed {
    if t.key == key && Live(t.claims, now) then Ok(t.claims) else Err(Invalid)
  }

  function AgentClaimsError(c: Claims): Option<ParseError> {
    if c.kind == "" || c.kind == KIND_HUMAN then None
    else if c.kind != KIND_AGENT then Some(UnknownKind)
    else if c.agentId == "" then Some(NoAgentId)
    else if Parse(c.principal).None? then Some(NoPrincipal)
    else if c.allowedTypes == [] then Some(NoWhitelist)
    else if Parse(c.id).None? then Some(NoCredentialId)
    else None
  }

  function FromMainKey(c: Claims): Parsed {
    if c.delivery then Err(DeliveryFromMainKey)
    else if c.previewEntry != "" then Err(PreviewFromMainKey)
    else if AgentClaimsError(c).Some? then Err(AgentClaimsError(c).value)
    else Ok(c)
  }

  function FromDeliveryKey(c: Claims): Parsed {
    if !c.delivery then Err(NotDelivery)
    else if c.kind != "" then Err(KindFromDeliveryKey)
    else Ok(c)
  }

  /** The main key first; whatever fails under it, expiry included, is tried under the delivery key. */
  function ParseAccessToken(s: Signer, t: Token, now: int): Parsed {
    match ParseWith(t, s.secret, now)
    case Ok(claims) => FromMainKey(claims)
    case Err(error) =>
      if !s.DeliveryEnabled() then Err(error)
      else
        match ParseWith(t, s.deliverySecret, now)
        case Err(_) => Err(error)
        case Ok(claims) => FromDeliveryKey(claims)
  }

  // ---------------------------------------------------------------- what a parsed token is

  /** A main-key credential: no delivery marking, and the agent claims all there or no narrowing claimed. */
  predicate DomainClaims(c: Claims) {
    && !c.delivery && c.previewEntry == ""
    && (c.kind in ["", KIND_HUMAN]
        || (c.kind == KIND_AGENT && c.agentId != "" && Parse(c.principal).Some? && c.allowedTypes != [] && Parse(c.id).Some?))
  }

  predicate EdgeClaims(c: Claims) { c.delivery && c.kind == "" }

  /** Exactly the tokens that parse, and a parsed token yields its own claims. The planes cannot overlap:
      what the delivery key signed is honoured as a delivery credential or not at all. */
  lemma ParsesIff(s: Signer, t: Token, now: int)
    ensures ParseAccessToken(s, t, now).Ok? <==>
              && Live(t.claims, now)
              && ((t.key == s.secret && DomainClaims(t.claims))
                  || (t.key != s.secret && s.DeliveryEnabled() && t.key == s.deliverySecret && EdgeClaims(t.claims)))
    ensures ParseAccessToken(s, t, now).Ok? ==> ParseAccessToken(s, t, now).claims == t.claims
    ensures !(DomainClaims(t.claims) && EdgeClaims(t.claims))
  {
    assert forall k :: k in ["", KIND_HUMAN] <==> k == "" || k == KIND_HUMAN;
  }

  // ---------------------------------------------------------------- round trips

  lemma AccessTokenRoundTrip(s: Signer, now: int, userId: Uuid, roles: seq<string>, tenantId: string,
                             tenantRole: string, region: string, mfa: bool, later: int)
    ensures var t := IssueAccessToken(s, now, userId, roles, tenantId, tenantRole, region, mfa);
            && (ParseAccessToken(s, t, later) == Ok(t.claims) <==> later < NumericDate(now + s.ttl) * SECOND)
            && Parse(t.claims.subject) == Some(userId)
  {
    ParseFormat(userId);
    var t := IssueAccessToken(s, now, userId, roles, tenantId, tenantRole, region, mfa);
    ParsesIff(s, t, later);
  }

  lemma AgentTokenRoundTrip(s: Signer, now: int, minter: Option<Claims>, credentialId: Uuid, agentId: string,
                            tenantRole: string, allowedTypes: seq<string>, later: int)
    requires IssueAgentToken(s, now, minter, credentialId, agentId, tenantRole, allowedTypes).Token?
    ensures var t := IssueAgentToken(s, now, minter, credentialId, agentId, tenantRole, allowedTypes).token;
            && (ParseAccessToken(s, t, later) == Ok(t.claims) <==> later < NumericDate(now + s.AgentLifetime()) * SECOND)
            && Parse(t.claims.id) == Some(credentialId) && Parse(t.claims.principal) == Parse(minter.value.subject)
  {
    var principal := Parse(minter.value.subject).value;
    ParseFormat(principal);
    ParseFormat(credentialId);
    ParsesIff(s, IssueAgentToken(s, now, minter, credentialId, agentId, tenantRole, allowedTypes).token, later);
  }

  /** Delivery and preview tokens come back while they live exactly when the two keys differ. */
  lemma DeliveryTokenRoundTrip(s: Signer, now: int, serviceId: Uuid, tenantSlug: string, later: int)
    requires s.DeliveryEnabled() && later < NumericDate(now + s.ttl) * SECOND
    ensures var t := IssueDeliveryToken(s, now, serviceId, tenantSlug);
            && t.Token?
            && (ParseAccessToken(s, t.token, later) == Ok(t.token.claims) <==> s.secret != s.deliverySecret)
  {
    ParsesIff(s, IssueDeliveryToken(s, now, serviceId, tenantSlug).token, later);
  }

  lemma PreviewTokenRoundTrip(s: Signer, now: int, issuerId: Uuid, tenantSlug: string, entryId: Uuid, later: int)
    requires s.DeliveryEnabled() && later < NumericDate(now + PREVIEW_TOKEN_TTL) * SECOND
    ensures var t := IssuePreviewToken(s, now, issuerId, tenantSlug, entryId);
            && t.Token? && Parse(t.token.claims.previewEntry) == Some(entryId)
            && (ParseAccessToken(s, t.token, later) == Ok(t.token.claims) <==> s.secret != s.deliverySecret)
  {
    ParseFormat(entryId);
    ParsesIff(s, IssuePreviewToken(s, now, issuerId, tenantSlug, entryId).token, later);
  }
}

/** From a bearer token to the subject a request acts as. */
module Authn {
  import opened Base
  import opened Uuids
  import opened Tokens

  /** The platform plane is `roles`; `tenantRole` is the membership role in the active tenant. */
  datatype Subject = Subject(
    userId: Uuid, roles: seq<string>, tenantId: string, tenantRole: string, region: string, mfaVerified: bool,
    publicDelivery: bool, previewEntryId: Option<Uuid>,
    kind: string, agentId: Option<string>, principalId: Option<Uuid>, allowedTypes: seq<string>,
    credentialId: Option<Uuid>)
  {
    predicate IsAgent() { kind == KIND_AGENT }

    predicate AllowsContentType(contentType: string) {
      !IsAgent() || (allowedTypes != [] && contentType != "" && contentType in allowedTypes)
    }

    /** Who answers for this subject's writes. */
    function ResponsibleUserId(): Uuid {
      if IsAgent() then (if principalId.None? then NIL else principalId.value) else userId
    }

    predicate HasRole(role: string) { role in roles }
  }

  /** HasRole is a search over the platform roles. */
  method FindRole(sub: Subject, role: string) returns (found: bool)
    ensures found == sub.HasRole(role)
  {
    for i := 0 to |sub.roles|
      invariant role !in sub.roles[..i]
    {
      if sub.roles[i] == role {
        return true;
      }
    }
    return false;
  }

  function SubjectOf(c: Claims): Option<Subject> {
    if Parse(c.subject).None? then None
    else if c.previewEntry != "" && Parse(c.previewEntry).None? then None
    else if c.kind == KIND_AGENT && (Parse(c.principal).None? || Parse(c.id).None?) then None
    else
      Some(Subject(Parse(c.subject).value, c.roles, c.tenantId, c.tenantRole, c.region, c.mfa,
                   c.delivery, if c.previewEntry == "" then None else Parse(c.previewEntry),
                   c.kind, if c.kind == KIND_AGENT then Some(c.agentId) else None,
                   if c.kind == KIND_AGENT then Parse(c.principal) else None,
                   c.allowedTypes, if c.kind == KIND_AGENT then Parse(c.id) else None))
  }

  /** `bearer` is the token of an Authorization header of the form "Bearer ...". */
  function SubjectFromBearer(s: Signer, bearer: Option<Token>, now: int): Option<Subject> {
    if bearer.None? then None
    else
      var p := ParseAccessToken(s, bearer.value, now);
      if p.Err? then None else SubjectOf(p.claims)
  }

  /** A bearer is somebody exactly when its token parses and every identifier it needs is readable; a claim that
      narrows it is never dropped. */
  lemma BearerIff(s: Signer, t: Token, now: int)
    ensures var sub, c := SubjectFromBearer(s, Some(t), now), t.claims;
            && (sub.Some? <==> ParseAccessToken(s, t, now).Ok? && Parse(c.subject).Some?
                               && (c.previewEntry != "" ==> Parse(c.previewEntry).Some?)
                               && (c.kind == "agent" ==> Parse(c.principal).Some? && Parse(c.id).Some?))
            && (sub.Some? ==>
                  && (sub.value.previewEntryId.Some? <==> c.previewEntry != "")
                  && (sub.value.IsAgent() <==> c.kind == "agent")
                  && sub.value.publicDelivery == c.delivery && sub.value.allowedTypes == c.allowedTypes
                  && (c.kind == "agent" ==> sub.value.agentId == Some(c.agentId) && sub.value.credentialId == Parse(c.id)))
    ensures SubjectFromBearer(s, None, now) == None
  {
    ParsesIff(s, t, now);
  }

  // ---------------------------------------------------------------- revocation

  datatype CheckAnswer = Active | Inactive | Failed

  type Checker = Uuid -> CheckAnswer

  predicate AgentCredentialUsable(checker: Option<Checker>, sub: Subject) {
    checker.Some? && sub.credentialId.Some? && checker.value(sub.credentialId.value) == Active
  }

  /** What the rest of the request sees. */
  datatype Admission = Anonymous | As(subject: Subject) | DevHeaders

  function Admit(s: Signer, allowDevHeaders: bool, checker: Option<Checker>, bearer: Option<Token>, now: int): Admission {
    var sub := SubjectFromBearer(s, bearer, now);
    if sub.Some? then
      if sub.value.IsAgent() && !AgentCredentialUsable(checker, sub.value) then Anonymous else As(sub.value)
    else if allowDevHeaders then DevHeaders
    else Anonymous
  }

  /** A request acts as an agent only with a live main-key agent token whose own credential record the
      checker just called active; every other answer, no checker included, leaves it anonymous. */
  lemma AgentsNeedAnActiveRecord(s: Signer, dev: bool, checker: Option<Checker>, bearer: Option<Token>, now: int)
    requires bearer.Some? && ParseAccessToken(s, bearer.value, now).Ok? && bearer.value.claims.kind == KIND_AGENT
    requires Parse(bearer.value.claims.subject).Some?
    ensures var c := bearer.value.claims;
            && bearer.value.key == s.secret && Parse(c.id).Some?
            && Admit(s, dev, checker, bearer, now) ==
                 (if checker.Some? && checker.value(Parse(c.id).value) == Active then As(SubjectOf(c).value) else Anonymous)
  {
    ParsesIff(s, bearer.value, now);
  }

  /** The converse reading: whoever is admitted as an agent carries the agent claims complete, and answers
      for its writes as its principal. */
  lemma AdmittedAgentIsComplete(s: Signer, dev: bool, checker: Option<Checker>, bearer: Option<Token>, now: int)
    requires Admit(s, dev, checker, bearer, now).As? && Admit(s, dev, checker, bearer, now).subject.IsAgent()
    ensures var sub := Admit(s, dev, checker, bearer, now).subject;
            && sub.agentId.Some? && sub.agentId.value != "" && sub.allowedTypes != [] && sub.credentialId.Some?
            && sub.principalId.Some? && sub.ResponsibleUserId() == sub.principalId.value
            && !sub.publicDelivery && sub.previewEntryId.None?
            && checker.Some? && checker.value(sub.credentialId.value) == Active
  {
    ParsesIff(s, bearer.value, now);
  }

  // ---------------------------------------------------------------- from the issuer's arguments to the subject

  /** A login acts, until its whole-second expiry, as exactly the subject it was issued for, and then as
      nobody, which leaves the development headers where those are allowed. */
  lemma LoginIsItsSubject(s: Signer, now: int, userId: Uuid, roles: seq<string>, tenantId: string, tenantRole: string,
                          region: string, mfa: bool, dev: bool, checker: Option<Checker>, later: int)
    ensures var t := IssueAccessToken(s, now, userId, roles, tenantId, tenantRole, region, mfa);
            var sub := Subject(userId, roles, tenantId, tenantRole, region, mfa, false, None, "", None, None, [], None);
            if later < (now + s.ttl) / 1_000_000_000 * 1_000_000_000
            then SubjectFromBearer(s, Some(t), later) == Some(sub) && Admit(s, dev, checker, Some(t), later) == As(sub)
            else SubjectFromBearer(s, Some(t), later) == None
                 && Admit(s, dev, checker, Some(t), later) == if dev then DevHeaders else Anonymous
  {
    ParseFormat(userId);
    ParsesIff(s, IssueAccessToken(s, now, userId, roles, tenantId, tenantRole, region, mfa), later);
  }

  /** An agent credential acts as its minter's person in its minter's tenant, with the role, agent id, whitelist
      and revocation record it was asked for and no platform role, until its whole-second expiry. */
  lemma AgentIsItsSubject(s: Signer, now: int, minter: Claims, credentialId: Uuid, agentId: string, tenantRole: string,
                          allowedTypes: seq<string>, later: int)
    requires IssueAgentToken(s, now, Some(minter), credentialId, agentId, tenantRole, allowedTypes).Token?
    ensures Parse(minter.subject).Some?
    ensures var t := IssueAgentToken(s, now, Some(minter), credentialId, agentId, tenantRole, allowedTypes).token;
            var person := Parse(minter.subject).value;
            var sub := Subject(person, [], minter.tenantId, tenantRole, minter.region, false, false, None,
                               "agent", Some(agentId), Some(person), allowedTypes, Some(credentialId));
            SubjectFromBearer(s, Some(t), later) ==
              if later < (now + if s.agentTTL > 0 then s.agentTTL else s.ttl) / 1_000_000_000 * 1_000_000_000
              then Some(sub) else None
  {
    ParseFormat(Parse(minter.subject).value);
    ParseFormat(credentialId);
    ParsesIff(s, IssueAgentToken(s, now, Some(minter), credentialId, agentId, tenantRole, allowedTypes).token, later);
  }

  /** And it acts at all only while a checker calls that very record active. */
  lemma AgentIsAdmittedIff(s: Signer, now: int, minter: Claims, credentialId: Uuid, agentId: string, tenantRole: string,
                           allowedTypes: seq<string>, checker: Option<Checker>, later: int)
    requires IssueAgentToken(s, now, Some(minter), credentialId, agentId, tenantRole, allowedTypes).Token?
    ensures var t := IssueAgentToken(s, now, Some(minter), credentialId, agentId, tenantRole, allowedTypes).token;
            var sub := SubjectFromBearer(s, Some(t), later);
            Admit(s, false, checker, Some(t), later) ==
              if sub.Some? && checker.Some? && checker.value(credentialId) == Active then As(sub.value) else Anonymous
  {
    AgentIsItsSubject(s, now, minter, credentialId, agentId, tenantRole, allowedTypes, later);
  }

  /** A delivery credential reads one tenant as a viewer, for its service; a preview link one entry of it. */
  lemma DeliveryIsItsSubject(s: Signer, now: int, serviceId: Uuid, tenantSlug: string, later: int)
    requires s.DeliveryEnabled() && s.secret != s.deliverySecret
    ensures IssueDeliveryToken(s, now, serviceId, tenantSlug).Token?
    ensures SubjectFromBearer(s, Some(IssueDeliveryToken(s, now, serviceId, tenantSlug).token), later) ==
              if later < (now + s.ttl) / 1_000_000_000 * 1_000_000_000
              then Some(Subject(serviceId, [], tenantSlug, "viewer", "", false, true, None, "", None, None, [], None))
              else None
  {
    ParseFormat(serviceId);
    ParsesIff(s, IssueDeliveryToken(s, now, serviceId, tenantSlug).token, later);
  }

  lemma PreviewIsItsSubject(s: Signer, now: int, issuerId: Uuid, tenantSlug: string, entryId: Uuid, later: int)
    requires s.DeliveryEnabled() && s.secret != s.deliverySecret
    ensures IssuePreviewToken(s, now, issuerId, tenantSlug, entryId).Token?
    ensures SubjectFromBearer(s, Some(IssuePreviewToken(s, now, issuerId, tenantSlug, entryId).token), later) ==
              if later < (now + 1_800_000_000_000) / 1_000_000_000 * 1_000_000_000
              then Some(Subject(issuerId, [], tenantSlug, "viewer", "", false, true, Some(entryId), "", None, None, [], None))
              else None
  {
    ParseFormat(issuerId);
    ParseFormat(entryId);
    ParsesIff(s, IssuePreviewToken(s, now, issuerId, tenantSlug, entryId).token, later);
  }

  /** Which content types a credential may touch: a login all of them, an agent the ones it was issued for,
      and none where the request names no type. */
  lemma TouchesIff(s: Signer, now: int, minter: Claims, credentialId: Uuid, agentId: string, tenantRole: string,
                   allowedTypes: seq<string>, later: int, contentType: string)
    requires IssueAgentToken(s, now, Some(minter), credentialId, agentId, tenantRole, allowedTypes).Token?
    ensures SubjectOf(minter).Some? ==> SubjectOf(minter).value.AllowsContentType(contentType)
    ensures var t := IssueAgentToken(s, now, Some(minter), credentialId, agentId, tenantRole, allowedTypes).token;
            var sub := SubjectFromBearer(s, Some(t), later);
            sub.Some? ==> (sub.value.AllowsContentType(contentType) <==> contentType != "" && contentType in allowedTypes)
  {
    AgentIsItsSubject(s, now, minter, credentialId, agentId, tenantRole, allowedTypes, later);
  }

  /** Exactly who gets an agent credential for what. */
  lemma AgentIssuedIff(s: Signer, now: int, minter: Option<Claims>, credentialId: Uuid, agentId: string, tenantRole: string,
                       allowedTypes: seq<string>)
    ensures IssueAgentToken(s, now, minter, credentialId, agentId, tenantRole, allowedTypes).Token? <==>
              && minter.Some? && minter.value.tenantId != "" && Parse(minter.value.subject).Some?
              && !minter.value.delivery && minter.value.previewEntry == "" && minter.value.kind == ""
              && agentId != "" && credentialId != NIL && allowedTypes != []
              && match minter.value.tenantRole
                 case "owner" => tenantRole == "admin" || tenantRole == "editor" || tenantRole == "viewer"
                 case "admin" => tenantRole == "editor" || tenantRole == "viewer"
                 case _ => false
  {
    assert forall r :: r in ["admin", "editor", "viewer"] <==> r == "admin" || r == "editor" || r == "viewer";
    assert forall r :: r in ["editor", "viewer"] <==> r == "editor" || r == "viewer";
  }
}

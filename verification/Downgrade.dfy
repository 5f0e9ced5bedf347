/** Agent credentials are strict downgrades of their minter's, and delegation is one step deep. */
module Downgrade {
  import opened Base
  import opened TenantDomain
  import opened Uuids
  import opened Tokens
  import opened Authn
  import opened Authz

  /** What `minted` owes to the credential it was minted from. */
  predicate MintedFrom(s: Signer, root: Claims, minted: Token) {
    var c := minted.claims;
    && minted.key == s.secret && DomainClaims(c)
    && Mintable(root) && Parse(root.subject).Some?
    && c.kind == KIND_AGENT && c.roles == [] && c.tenantId == root.tenantId && CanMintAgentRole(root.tenantRole, c.tenantRole)
    && Parse(c.subject) == Parse(root.subject) && Parse(c.principal) == Parse(root.subject)
  }

  lemma IssuedIsMintedFrom(s: Signer, now: int, minter: Claims, credentialId: Uuid, agentId: string,
                           tenantRole: string, allowedTypes: seq<string>)
    requires IssueAgentToken(s, now, Some(minter), credentialId, agentId, tenantRole, allowedTypes).Token?
    ensures MintedFrom(s, minter,
                       IssueAgentToken(s, now, Some(minter), credentialId, agentId, tenantRole, allowedTypes).token)
  {
    ParseFormat(Parse(minter.subject).value);
    ParseFormat(credentialId);
  }

  /** Both credentials name a subject, the same person. */
  lemma SubjectsExist(s: Signer, root: Claims, minted: Token)
    requires MintedFrom(s, root, minted)
    ensures SubjectOf(root).Some? && SubjectOf(minted.claims).Some?
    ensures SubjectOf(minted.claims).value.ResponsibleUserId() == SubjectOf(root).value.userId
  {
  }

  /** Whatever gate and role matrix allow the agent they allow its minter, on every resource and for every
      content type; and the minter may always do something the agent may not. */
  lemma DowngradeIsSound(s: Signer, root: Claims, minted: Token, action: string, resource: Resource, contentType: string)
    requires MintedFrom(s, root, minted)
    ensures SubjectOf(root).Some? && SubjectOf(minted.claims).Some?
    ensures var minter, agent := SubjectOf(root), SubjectOf(minted.claims);
            && (Allow(agent, action, resource) == Allowed ==> Allow(minter, action, resource) == Allowed)
            && (agent.value.AllowsContentType(contentType) ==> minter.value.AllowsContentType(contentType))
            && Allow(minter, CONTENT_PUBLISH, resource) == Allowed
            && Allow(agent, CONTENT_PUBLISH, resource) == Forbidden
  {
    SubjectsExist(s, root, minted);
    var minter, agent := SubjectOf(root).value, SubjectOf(minted.claims).value;
    MintingIsStrict(root.tenantRole, minted.claims.tenantRole);
    ContentActionIsTenantPlane(CONTENT_PUBLISH);
    CapabilityMatrix(minter, CONTENT_PUBLISH, resource);
    AgentMayIff(agent, action, resource);
    if AgentListed(action) {
      CapabilityMatrix(minter, action, resource);
    }
  }

  /** An agent token mints nothing: the signer refuses it as a minter and the matrix refuses its subject the verb. */
  lemma AgentsDoNotMint(s: Signer, root: Claims, minted: Token, other: Signer, now: int, credentialId: Uuid,
                        agentId: string, tenantRole: string, allowedTypes: seq<string>, resource: Resource)
    requires MintedFrom(s, root, minted)
    ensures IssueAgentToken(other, now, Some(minted.claims), credentialId, agentId, tenantRole, allowedTypes)
            == Refused(NotMintable)
    ensures Allow(SubjectOf(minted.claims), AGENT_CREDENTIAL_ISSUE, resource) == Forbidden
  {
    SubjectsExist(s, root, minted);
  }

  // ---------------------------------------------------------------- any number of mintings

  /** Somebody presents the `holder`-th token in circulation and asks for an agent credential. */
  datatype Request = Request(holder: nat, now: int, credentialId: Uuid, agentId: string, tenantRole: string,
                             allowedTypes: seq<string>)

  /** The service's decision: the bearer's subject must hold the verb, its token must parse, and the signer must agree. */
  function Mint(s: Signer, bearer: Token, r: Request): Option<Token> {
    if Allow(SubjectFromBearer(s, Some(bearer), r.now), AGENT_CREDENTIAL_ISSUE, Resource("agent_credential", "")) != Allowed
    then None
    else match ParseAccessToken(s, bearer, r.now)
         case Err(_) => None
         case Ok(claims) =>
           match IssueAgentToken(s, r.now, Some(claims), r.credentialId, r.agentId, r.tenantRole, r.allowedTypes)
           case Refused(_) => None
           case Token(t) => Some(t)
  }

  /** The tokens in circulation after some requests, oldest first. */
  function Circulating(s: Signer, roots: seq<Token>, requests: seq<Request>): (tokens: seq<Token>)
    ensures |roots| <= |tokens| && tokens[..|roots|] == roots
  {
    if requests == [] then roots
    else
      var before := Circulating(s, roots, requests[..|requests| - 1]);
      var r := requests[|requests| - 1];
      if r.holder < |before| && Mint(s, before[r.holder], r).Some? then before + [Mint(s, before[r.holder], r).value]
      else before
  }

  lemma MintIsMintedFrom(s: Signer, bearer: Token, r: Request)
    requires Mint(s, bearer, r).Some?
    ensures MintedFrom(s, bearer.claims, Mint(s, bearer, r).value) && bearer.claims.kind == ""
  {
    ParsesIff(s, bearer, r.now);
    IssuedIsMintedFrom(s, r.now, bearer.claims, r.credentialId, r.agentId, r.tenantRole, r.allowedTypes);
  }

  /** Exactly whose request is granted: a live login of an owner or admin, asking for a lower role, with a whitelist,
      an agent id and a revocation record. */
  lemma MintsIff(s: Signer, bearer: Token, r: Request)
    ensures Mint(s, bearer, r).Some? <==>
              && bearer.key == s.secret && Live(bearer.claims, r.now) && Parse(bearer.claims.subject).Some?
              && !bearer.claims.delivery && bearer.claims.previewEntry == "" && bearer.claims.kind == ""
              && bearer.claims.tenantId != ""
              && r.agentId != "" && r.credentialId != NIL && r.allowedTypes != []
              && match bearer.claims.tenantRole
                 case "owner" => r.tenantRole == "admin" || r.tenantRole == "editor" || r.tenantRole == "viewer"
                 case "admin" => r.tenantRole == "editor" || r.tenantRole == "viewer"
                 case _ => false
  {
    ParsesIff(s, bearer, r.now);
    AgentIssuedIff(s, r.now, Some(bearer.claims), r.credentialId, r.agentId, r.tenantRole, r.allowedTypes);
    assert KIND_HUMAN != "" && KIND_AGENT != "";
    assert HasPrefix(AGENT_CREDENTIAL_ISSUE, "agent:");
  }

  /** What is granted is put into circulation, as the credential the signer issues to that bearer. */
  lemma GrantedCirculates(s: Signer, roots: seq<Token>, requests: seq<Request>, r: Request)
    requires r.holder < |Circulating(s, roots, requests)|
    requires Mint(s, Circulating(s, roots, requests)[r.holder], r).Some?
    ensures var before := Circulating(s, roots, requests);
            Circulating(s, roots, requests + [r]) == before + [
              IssueAgentToken(s, r.now, Some(before[r.holder].claims), r.credentialId, r.agentId, r.tenantRole, r.allowedTypes).token]
  {
    var bearer := Circulating(s, roots, requests)[r.holder];
    ParsesIff(s, bearer, r.now);
    assert (requests + [r])[..|requests|] == requests;
  }

  /** However many credentials are minted, from whatever is in circulation, each was minted from one of the
      tokens there at the start, so its power is bounded by that one's. */
  lemma {:induction false} DelegationIsOneDeep(s: Signer, roots: seq<Token>, requests: seq<Request>, k: nat)
    returns (root: nat)
    requires |roots| <= k < |Circulating(s, roots, requests)|
    ensures root < |roots| && MintedFrom(s, roots[root].claims, Circulating(s, roots, requests)[k])
  {
    var earlier := requests[..|requests| - 1];
    var before := Circulating(s, roots, earlier);
    if k < |before| {
      root := DelegationIsOneDeep(s, roots, earlier, k);
    } else {
      var r := requests[|requests| - 1];
      root := r.holder;
      MintIsMintedFrom(s, before[root], r);
      if root >= |roots| {
        var _ := DelegationIsOneDeep(s, roots, earlier, root);
        assert false;
      }
      assert before[..|roots|][root] == roots[root];
    }
  }

  /** The consequence for what can be done: nothing in circulation is allowed what no starting token is. */
  lemma NothingIsGained(s: Signer, roots: seq<Token>, requests: seq<Request>, k: nat, action: string, resource: Resource)
    returns (root: nat)
    requires k < |Circulating(s, roots, requests)|
    requires Allow(SubjectOf(Circulating(s, roots, requests)[k].claims), action, resource) == Allowed
    ensures root < |roots| && Allow(SubjectOf(roots[root].claims), action, resource) == Allowed
  {
    if k < |roots| {
      root := k;
      assert Circulating(s, roots, requests)[..|roots|][k] == roots[k];
    } else {
      root := DelegationIsOneDeep(s, roots, requests, k);
      DowngradeIsSound(s, roots[root].claims, Circulating(s, roots, requests)[k], action, resource, "");
    }
  }
}

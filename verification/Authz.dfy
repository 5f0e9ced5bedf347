/** The role-based decision point: which verb a subject may exercise on which resource. */
module Authz {
  import opened Base
  import opened Uuids
  import opened Authn

  // ---------------------------------------------------------------- verbs

  const USER_READ := "user:read"
  const USER_UPDATE := "user:update"
  const USER_PREFERENCES_UPDATE := "user:preferences:update"
  const IAM_ROLE_READ := "iam:role:read"
  const IAM_ROLE_ASSIGN := "iam:role:assign"
  const IAM_ROLE_REVOKE := "iam:role:revoke"
  const NOTIFICATION_READ := "notification:read"
  const NOTIFICATION_CREATE := "notification:create"
  const NOTIFICATION_MARK_READ := "notification:mark_read"
  const PLATFORM_APP_LIST := "platform:app:list"
  const PLATFORM_APP_CREATE := "platform:app:create"
  const PLATFORM_APP_UPDATE := "platform:app:update"
  const PLATFORM_TENANT_PLAN_SET := "platform:tenant:plan:update"
  const CONTENT_LIST := "content:list"
  const CONTENT_READ := "content:read"
  const CONTENT_CREATE := "content:create"
  const CONTENT_UPDATE := "content:update"
  const CONTENT_DELETE := "content:delete"
  const CONTENT_PUBLISH := "content:publish"
  const CONTENT_SCHEMA_WRITE := "content:schema:write"
  const CONTENT_SCHEMA_PLAN := "content:schema:plan"
  const CONTENT_SCHEMA_PROPOSE := "content:schema:propose"
  const CONTENT_SCHEMA_AMEND := "content:schema:amend"
  const CONTENT_ACTIVITY_READ := "content:activity:read"
  const CONTENT_REVIEW_LIST := "content:review:list"
  const TENANT_INVITE_CREATE := "tenant:invite:create"
  const TENANT_INVITE_ACCEPT := "tenant:invite:accept"
  const TENANT_INVITE_LIST := "tenant:invite:list"
  const TENANT_INVITE_REVOKE := "tenant:invite:revoke"
  const TENANT_MEMBER_LIST := "tenant:member:list"
  const TENANT_MEMBER_UPDATE := "tenant:member:update"
  const TENANT_MEMBER_REMOVE := "tenant:member:remove"
  const AGENT_CREDENTIAL_ISSUE := "agent:credential:issue"
  const AGENT_CREDENTIAL_LIST := "agent:credential:list"
  const AGENT_CREDENTIAL_REVOKE := "agent:credential:revoke"

  datatype Decision = Allowed | Unauthorized | Forbidden

  datatype Resource = Resource(kind: string, id: string)

  // ---------------------------------------------------------------- classes of verbs

  predicate TenantPlane(action: string) {
    || HasPrefix(action, "content:")
    || HasPrefix(action, "tenant:invite:")
    || HasPrefix(action, "tenant:member:")
    || HasPrefix(action, "agent:")
  }

  predicate ContentAction(action: string) {
    || action == CONTENT_LIST || action == CONTENT_READ || action == CONTENT_CREATE || action == CONTENT_UPDATE
    || action == CONTENT_DELETE || action == CONTENT_PUBLISH || action == CONTENT_SCHEMA_WRITE
    || action == CONTENT_SCHEMA_PLAN || action == CONTENT_SCHEMA_PROPOSE || action == CONTENT_SCHEMA_AMEND
    || action == CONTENT_ACTIVITY_READ || action == CONTENT_REVIEW_LIST
  }

  predicate IamAction(action: string) {
    action == IAM_ROLE_READ || action == IAM_ROLE_ASSIGN || action == IAM_ROLE_REVOKE
  }

  predicate PlatformAction(action: string) {
    || action == PLATFORM_APP_LIST || action == PLATFORM_APP_CREATE || action == PLATFORM_APP_UPDATE
    || action == PLATFORM_TENANT_PLAN_SET
  }

  /** The verbs an agent credential may exercise at all. */
  predicate AgentListed(action: string) {
    || action == CONTENT_LIST || action == CONTENT_READ || action == CONTENT_CREATE || action == CONTENT_UPDATE
    || action == CONTENT_SCHEMA_PLAN || action == CONTENT_SCHEMA_PROPOSE
  }

  predicate RefusedToAgent(sub: Subject, action: string) { sub.IsAgent() && !AgentListed(action) }

  // ---------------------------------------------------------------- the decision

  predicate OwnerOrAdmin(role: string) { role == "owner" || role == "admin" }

  function Whether(b: bool): Decision { if b then Allowed else Forbidden }

  function AllowContentByTenantRole(tenantRole: string, action: string): Decision {
    if action == CONTENT_SCHEMA_WRITE then Whether(OwnerOrAdmin(tenantRole))
    else if tenantRole == "owner" || tenantRole == "admin" || tenantRole == "editor" then Allowed
    else if tenantRole == "viewer" then Whether(action == CONTENT_LIST || action == CONTENT_READ)
    else Forbidden
  }

  function AllowOnTenantPlane(sub: Subject, action: string, resource: Resource): Decision {
    if ContentAction(action) then
      if sub.tenantId == "" then Forbidden else AllowContentByTenantRole(sub.tenantRole, action)
    else if action == TENANT_INVITE_CREATE then
      Whether(sub.tenantId != "" && resource.id == sub.tenantId && OwnerOrAdmin(sub.tenantRole))
    else if action == TENANT_INVITE_ACCEPT then Allowed
    else if action == TENANT_INVITE_LIST || action == TENANT_INVITE_REVOKE then
      Whether(sub.tenantId != "" && OwnerOrAdmin(sub.tenantRole))
    else if action == TENANT_MEMBER_LIST then
      Whether(sub.tenantId != "" && (OwnerOrAdmin(sub.tenantRole) || sub.tenantRole == "editor" || sub.tenantRole == "viewer"))
    else if action == TENANT_MEMBER_UPDATE || action == TENANT_MEMBER_REMOVE then
      Whether(sub.tenantId != "" && OwnerOrAdmin(sub.tenantRole))
    else if action == AGENT_CREDENTIAL_ISSUE || action == AGENT_CREDENTIAL_LIST || action == AGENT_CREDENTIAL_REVOKE then
      Whether(sub.tenantId != "" && OwnerOrAdmin(sub.tenantRole))
    else Forbidden
  }

  function AllowOnPlatformPlane(sub: Subject, action: string, resource: Resource): Decision {
    if sub.HasRole("admin") then Allowed
    else if IamAction(action) || PlatformAction(action) then Forbidden
    else if Parse(resource.id).None? then Forbidden
    else if action == NOTIFICATION_READ || action == NOTIFICATION_CREATE || action == NOTIFICATION_MARK_READ
         || action == USER_READ || action == USER_UPDATE || action == USER_PREFERENCES_UPDATE then
      Whether(sub.userId == Parse(resource.id).value)
    else Forbidden
  }

  function Allow(sub: Option<Subject>, action: string, resource: Resource): Decision {
    if sub.None? then Unauthorized
    else if RefusedToAgent(sub.value, action) then Forbidden
    else if TenantPlane(action) then AllowOnTenantPlane(sub.value, action, resource)
    else AllowOnPlatformPlane(sub.value, action, resource)
  }

  // ---------------------------------------------------------------- the tenant plane

  /** The tenant-plane verbs anybody was ever given. */
  predicate RuledOn(action: string) {
    || ContentAction(action)
    || action == TENANT_INVITE_CREATE || action == TENANT_INVITE_ACCEPT || action == TENANT_INVITE_LIST
    || action == TENANT_INVITE_REVOKE || action == TENANT_MEMBER_LIST || action == TENANT_MEMBER_UPDATE
    || action == TENANT_MEMBER_REMOVE || action == AGENT_CREDENTIAL_ISSUE || action == AGENT_CREDENTIAL_LIST
    || action == AGENT_CREDENTIAL_REVOKE
  }

  lemma ContentActionIsTenantPlane(action: string)
    requires ContentAction(action)
    ensures TenantPlane(action)
  {
    assert action == "content:" + action[8..];
  }

  lemma InviteOrMemberVerb(action: string)
    requires RuledOn(action) && !ContentAction(action) && action[0] == 't'
    ensures TenantPlane(action)
  {
    if action[7] == 'i' {
      assert action == "tenant:invite:" + action[14..];
    } else {
      assert action == "tenant:member:" + action[14..];
    }
  }

  /** A tenant-plane verb without a rule is denied to everyone, platform admins included; and every verb
      with a rule is decided on the tenant plane. */
  lemma UnruledIsDenied(sub: Subject, action: string, resource: Resource)
    ensures TenantPlane(action) && !RuledOn(action) ==> Allow(Some(sub), action, resource) == Forbidden
    ensures RuledOn(action) ==> TenantPlane(action)
  {
    if ContentAction(action) {
      ContentActionIsTenantPlane(action);
    } else if RuledOn(action) {
      if action[0] == 'a' {
        assert action == "agent:" + action[6..];
      } else {
        InviteOrMemberVerb(action);
      }
    }
  }

  // ---------------------------------------------------------------- roles are ordered by what they allow

  function Rank(role: string): nat {
    if role == "owner" then 4 else if role == "admin" then 3 else if role == "editor" then 2
    else if role == "viewer" then 1 else 0
  }

  /** A higher membership role is never refused what a lower one is allowed. */
  lemma RolesAreMonotone(sub: Subject, higher: string, action: string, resource: Resource)
    requires Rank(sub.tenantRole) <= Rank(higher) && Allow(Some(sub), action, resource) == Allowed
    ensures Allow(Some(sub.(tenantRole := higher)), action, resource) == Allowed
  {
  }

  /** What each membership role may do with content, human credentials in an active tenant. */
  lemma CapabilityMatrix(sub: Subject, action: string, resource: Resource)
    requires !sub.IsAgent() && sub.tenantId != "" && ContentAction(action)
    ensures Allow(Some(sub), action, resource) == Allowed <==>
              (if action == CONTENT_SCHEMA_WRITE then Rank(sub.tenantRole) >= 3
               else if action == CONTENT_LIST || action == CONTENT_READ then Rank(sub.tenantRole) >= 1
               else Rank(sub.tenantRole) >= 2)
  {
    ContentActionIsTenantPlane(action);
  }

  const CONTENT_VERBS := {
    "content:list", "content:read", "content:create", "content:update", "content:delete", "content:publish",
    "content:schema:write", "content:schema:plan", "content:schema:propose", "content:schema:amend",
    "content:activity:read", "content:review:list"}

  /** Exactly what a person may do on the tenant plane. */
  lemma TenantPlaneIff(sub: Subject, action: string, resource: Resource)
    requires !sub.IsAgent() && TenantPlane(action)
    ensures Allow(Some(sub), action, resource) == Allowed <==>
              || action == "tenant:invite:accept"
              || (sub.tenantId != "" && (
                  || (action in CONTENT_VERBS - {"content:schema:write"} && Rank(sub.tenantRole) >= 2)
                  || (action in {"content:list", "content:read", "tenant:member:list"} && Rank(sub.tenantRole) >= 1)
                  || (action in {"content:schema:write", "tenant:invite:list", "tenant:invite:revoke", "tenant:member:update",
                                 "tenant:member:remove", "agent:credential:issue", "agent:credential:list",
                                 "agent:credential:revoke"} && Rank(sub.tenantRole) >= 3)
                  || (action == "tenant:invite:create" && Rank(sub.tenantRole) >= 3 && resource.id == sub.tenantId)))
  {
    assert ContentAction(action) <==> action in CONTENT_VERBS;
  }

  /** Exactly what a person may do on the platform plane: an admin everything, others six things to themselves. */
  lemma PlatformPlaneIff(sub: Subject, action: string, resource: Resource)
    requires !sub.IsAgent() && !TenantPlane(action)
    ensures Allow(Some(sub), action, resource) == Allowed <==>
              || "admin" in sub.roles
              || (action in {"user:read", "user:update", "user:preferences:update", "notification:read",
                             "notification:create", "notification:mark_read"}
                  && Parse(resource.id) == Some(sub.userId))
  {
  }

  /** Exactly what an agent credential may do. */
  lemma AgentMayIff(sub: Subject, action: string, resource: Resource)
    requires sub.IsAgent()
    ensures Allow(Some(sub), action, resource) == Allowed <==>
              && sub.tenantId != ""
              && action in {"content:list", "content:read", "content:create", "content:update", "content:schema:plan",
                            "content:schema:propose"}
              && Rank(sub.tenantRole) >= (if action == CONTENT_LIST || action == CONTENT_READ then 1 else 2)
  {
    if AgentListed(action) {
      ContentActionIsTenantPlane(action);
    }
  }
}

/** The tenant service: who may ask for a membership change, and whom only an owner may touch. */
module TenantService {
  import opened Base
  import opened TenantDomain
  import opened Uuids
  import opened Authn
  import Authz
  import opened Membership

  const INVITE_TTL: int := 7 * 24 * 3600 * 1_000_000_000

  /** A request that reached the service. Its subject is absent when nobody is authenticated. */
  datatype Call =
    | UpdateMemberRole(sub: Option<Subject>, target: UserId, role: string, emailKnown: bool)
    | RemoveMember(sub: Option<Subject>, target: UserId)
    | CreateInvite(sub: Option<Subject>, newId: InviteId, email: string, wellFormed: bool, role: string, now: int)
    | AcceptInvite(sub: Option<Subject>, token: string, found: Option<InviteId>, now: int)
    | RevokeInvite(sub: Option<Subject>, invite: InviteId)
    | Provision(user: UserId, slugs: seq<Option<TenantId>>)

  function Caller(sub: Subject): UserId { Number(sub.userId) }

  /** Members are numbered without confusing two users. */
  lemma CallersAreDistinct(a: Subject, b: Subject)
    ensures Caller(a) == Caller(b) <==> a.userId == b.userId
  {
    NumberInjective(a.userId, b.userId);
  }

  // ---------------------------------------------------------------- the checks in front

  predicate Holds(sub: Subject, action: string) {
    Authz.Allow(Some(sub), action, Authz.Resource("tenant", sub.tenantId)) == Authz.Allowed
  }

  /** Authenticated, in an active tenant, holding the verb, and by the live membership row still owner or admin. */
  function Gate(m: Members, sub: Option<Subject>, action: string): Answer {
    if sub.None? then Unauthorized
    else if sub.value.tenantId == "" then NoActiveTenant
    else if !Holds(sub.value, action) then Forbidden
    else if !OwnerOrAdmin(m, sub.value.tenantId, Caller(sub.value)) then Forbidden
    else Ok
  }

  /** What an admin may not do: give the owner role, or touch a member who has it. */
  function AdminRule(m: Members, sub: Subject, target: UserId, assignsOwner: bool): Answer {
    if Key(sub.tenantId, Caller(sub)) !in m || m[Key(sub.tenantId, Caller(sub))] != Admin then Ok
    else if Key(sub.tenantId, target) !in m then NotFound
    else if assignsOwner || m[Key(sub.tenantId, target)] == Owner then CannotAssignOwner
    else Ok
  }

  function RoleUpdated(db: Db, sub: Option<Subject>, target: UserId, role: string, emailKnown: bool): (Db, Answer) {
    var gate := Gate(db.members, sub, Authz.TENANT_MEMBER_UPDATE);
    if gate != Ok then (db, gate)
    else if role == "" then (db, ValidationFailed)
    else if !ValidRole(role) then (db, RoleInvalid)
    else if target == Caller(sub.value) then (db, SelfOperation)
    else
      var rule := AdminRule(db.members, sub.value, target, role == "owner");
      if rule != Ok then (db, rule)
      else if sub.value.tenantId !in db.tenants then (db, NotFound)
      else
        var r := Changed(db.members, Key(sub.value.tenantId, target), SetRole(RoleNamed(role).value));
        (db.(members := r.0), if r.1 == Ok && !emailKnown then EmailUnknown else r.1)
  }

  function MemberRemoved(db: Db, sub: Option<Subject>, target: UserId): (Db, Answer) {
    var gate := Gate(db.members, sub, Authz.TENANT_MEMBER_REMOVE);
    if gate != Ok then (db, gate)
    else if target == Caller(sub.value) then (db, SelfOperation)
    else
      var rule := AdminRule(db.members, sub.value, target, false);
      if rule != Ok then (db, rule)
      else if sub.value.tenantId !in db.tenants then (db, NotFound)
      else
        var r := Changed(db.members, Key(sub.value.tenantId, target), Remove);
        (db.(members := r.0), r.1)
  }

  function Invited(db: Db, sub: Option<Subject>, id: InviteId, email: string, wellFormed: bool, role: string, now: int): (Db, Answer) {
    var gate := Gate(db.members, sub, Authz.TENANT_INVITE_CREATE);
    if gate != Ok then (db, gate)
    else if !wellFormed || role == "" then (db, ValidationFailed)
    else if !InvitableRole(role) then (db, RoleInvalid)
    else if sub.value.tenantId !in db.tenants then (db, NotFound)
    else (db.(invites := db.invites[id := Invite(sub.value.tenantId, RoleNamed(role).value, email, Caller(sub.value),
                                                 now + INVITE_TTL, None, None)]), Ok)
  }

  function Joined(db: Db, sub: Option<Subject>, token: string, found: Option<InviteId>, now: int): (Db, Answer) {
    if sub.None? then (db, Unauthorized)
    else if Authz.Allow(sub, Authz.TENANT_INVITE_ACCEPT, Authz.Resource("tenant", "invite")) != Authz.Allowed then (db, Forbidden)
    else if token == "" then (db, ValidationFailed)
    else Accepted(db, found, Caller(sub.value), now)
  }

  function Cancelled(db: Db, sub: Option<Subject>, invite: InviteId): (Db, Answer) {
    var gate := Gate(db.members, sub, Authz.TENANT_INVITE_REVOKE);
    if gate != Ok then (db, gate)
    else if sub.value.tenantId !in db.tenants then (db, NotFound)
    else Revoked(db, sub.value.tenantId, invite, Caller(sub.value))
  }

  /** What one call does, one after the other. */
  function Effect(db: Db, call: Call): (Db, Answer) {
    match call
    case UpdateMemberRole(sub, target, role, emailKnown) => RoleUpdated(db, sub, target, role, emailKnown)
    case RemoveMember(sub, target) => MemberRemoved(db, sub, target)
    case CreateInvite(sub, id, email, wellFormed, role, now) => Invited(db, sub, id, email, wellFormed, role, now)
    case AcceptInvite(sub, token, found, now) => Joined(db, sub, token, found, now)
    case RevokeInvite(sub, invite) => Cancelled(db, sub, invite)
    case Provision(user, slugs) => (Provisioned(db, user, slugs).0, Ok)
  }

  // ---------------------------------------------------------------- the service

  class Service {
    const repo: Repository

    constructor (repo: Repository)
      ensures this.repo == repo
    {
      this.repo := repo;
    }

    method RequireLiveOwnerOrAdmin(sub: Subject) returns (liveRole: Option<Role>)
      ensures liveRole.Some? <==> OwnerOrAdmin(repo.members, sub.tenantId, Caller(sub))
      ensures liveRole.Some? ==> liveRole.value == repo.members[Key(sub.tenantId, Caller(sub))]
    {
      var key := Key(sub.tenantId, Caller(sub));
      if key !in repo.members {
        return None;
      }
      var role := repo.members[key];
      if role != Owner && role != Admin {
        return None;
      }
      return Some(role);
    }

    method UpdateRole(sub: Option<Subject>, target: UserId, role: string, emailKnown: bool) returns (answer: Answer)
      modifies repo
      ensures (repo.Snapshot(), answer) == RoleUpdated(old(repo.Snapshot()), sub, target, role, emailKnown)
    {
      if sub.None? {
        return Unauthorized;
      }
      if sub.value.tenantId == "" {
        return NoActiveTenant;
      }
      if !Holds(sub.value, Authz.TENANT_MEMBER_UPDATE) {
        return Forbidden;
      }
      var liveRole := RequireLiveOwnerOrAdmin(sub.value);
      if liveRole.None? {
        return Forbidden;
      }
      if role == "" {
        return ValidationFailed;
      }
      if !ValidRole(role) {
        return RoleInvalid;
      }
      if target == Caller(sub.value) {
        return SelfOperation;
      }
      if liveRole == Some(Admin) {
        if Key(sub.value.tenantId, target) !in repo.members {
          return NotFound;
        }
        if role == "owner" || repo.members[Key(sub.value.tenantId, target)] == Owner {
          return CannotAssignOwner;
        }
      }
      if sub.value.tenantId !in repo.tenants {
        return NotFound;
      }
      answer := repo.UpdateMemberRole(sub.value.tenantId, target, RoleNamed(role).value);
      if answer == Ok && !emailKnown {
        answer := EmailUnknown;
      }
    }

    method Evict(sub: Option<Subject>, target: UserId) returns (answer: Answer)
      modifies repo
      ensures (repo.Snapshot(), answer) == MemberRemoved(old(repo.Snapshot()), sub, target)
    {
      if sub.None? {
        return Unauthorized;
      }
      if sub.value.tenantId == "" {
        return NoActiveTenant;
      }
      if !Holds(sub.value, Authz.TENANT_MEMBER_REMOVE) {
        return Forbidden;
      }
      var liveRole := RequireLiveOwnerOrAdmin(sub.value);
      if liveRole.None? {
        return Forbidden;
      }
      if target == Caller(sub.value) {
        return SelfOperation;
      }
      if liveRole == Some(Admin) {
        if Key(sub.value.tenantId, target) !in repo.members {
          return NotFound;
        }
        if repo.members[Key(sub.value.tenantId, target)] == Owner {
          return CannotAssignOwner;
        }
      }
      if sub.value.tenantId !in repo.tenants {
        return NotFound;
      }
      answer := repo.RemoveMember(sub.value.tenantId, target);
    }

    /** newId is a fresh identifier. */
    method Invite(sub: Option<Subject>, newId: InviteId, email: string, wellFormed: bool, role: string, now: int)
      returns (answer: Answer)
      requires newId !in repo.invites
      modifies repo
      ensures (repo.Snapshot(), answer) == Invited(old(repo.Snapshot()), sub, newId, email, wellFormed, role, now)
    {
      if sub.None? {
        return Unauthorized;
      }
      if sub.value.tenantId == "" {
        return NoActiveTenant;
      }
      if !Holds(sub.value, Authz.TENANT_INVITE_CREATE) {
        return Forbidden;
      }
      var liveRole := RequireLiveOwnerOrAdmin(sub.value);
      if liveRole.None? {
        return Forbidden;
      }
      if !wellFormed || role == "" {
        return ValidationFailed;
      }
      if !InvitableRole(role) {
        return RoleInvalid;
      }
      if sub.value.tenantId !in repo.tenants {
        return NotFound;
      }
      repo.CreateInvite(newId, Membership.Invite(sub.value.tenantId, RoleNamed(role).value, email, Caller(sub.value),
                                                 now + INVITE_TTL, None, None));
      return Ok;
    }

    method Accept(sub: Option<Subject>, token: string, found: Option<InviteId>, now: int) returns (answer: Answer)
      modifies repo
      ensures (repo.Snapshot(), answer) == Joined(old(repo.Snapshot()), sub, token, found, now)
    {
      if sub.None? {
        return Unauthorized;
      }
      if Authz.Allow(sub, Authz.TENANT_INVITE_ACCEPT, Authz.Resource("tenant", "invite")) != Authz.Allowed {
        return Forbidden;
      }
      if token == "" {
        return ValidationFailed;
      }
      answer := repo.AcceptInvite(found, Caller(sub.value), now);
    }

    method Revoke(sub: Option<Subject>, invite: InviteId) returns (answer: Answer)
      modifies repo
      ensures (repo.Snapshot(), answer) == Cancelled(old(repo.Snapshot()), sub, invite)
    {
      if sub.None? {
        return Unauthorized;
      }
      if sub.value.tenantId == "" {
        return NoActiveTenant;
      }
      if !Holds(sub.value, Authz.TENANT_INVITE_REVOKE) {
        return Forbidden;
      }
      var liveRole := RequireLiveOwnerOrAdmin(sub.value);
      if liveRole.None? {
        return Forbidden;
      }
      if sub.value.tenantId !in repo.tenants {
        return NotFound;
      }
      answer := repo.RevokeInvite(sub.value.tenantId, invite, Caller(sub.value));
    }
  }
}

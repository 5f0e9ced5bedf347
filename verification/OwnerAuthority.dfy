/** Who changes a tenant's owners when calls come one after the other: a new tenant's provisioning, and
    owners themselves. */
module OwnerAuthority {
  import opened Base
  import opened TenantDomain
  import opened Authn
  import opened Membership
  import opened TenantService

  ghost predicate WellFormed(db: Db) {
    && (forall k :: k in db.members ==> k.tenant in db.tenants)
    && (forall i :: i in db.invites ==>
          && db.invites[i].role != Owner && db.invites[i].tenant in db.tenants
          && !(db.invites[i].acceptedBy.Some? && db.invites[i].revokedBy.Some?))
  }

  /** Identifiers of new invites are unused. */
  predicate FreshId(db: Db, call: Call) { call.CreateInvite? ==> call.newId !in db.invites }

  /** A role change or removal asked by somebody who owns that tenant at that moment, about somebody else. */
  predicate ByAnOwner(db: Db, call: Call, tenant: TenantId) {
    && (call.UpdateMemberRole? || call.RemoveMember?)
    && call.sub.Some? && call.sub.value.tenantId == tenant
    && IsOwner(db.members, tenant, Caller(call.sub.value)) && call.target != Caller(call.sub.value)
  }

  predicate Provisions(db: Db, call: Call, tenant: TenantId) {
    call.Provision? && FreeSlug(call.slugs, db.tenants) == Some(tenant)
  }

  predicate TookEffect(answer: Answer) { answer == Ok || answer == EmailUnknown }

  predicate MakesOwner(call: Call) { call.UpdateMemberRole? && call.role == "owner" }

  /** The owners of one tenant after any call. */
  function OwnersAfter(db: Db, call: Call, tenant: TenantId): set<UserId> {
    if Provisions(db, call, tenant) then {call.user}
    else if !ByAnOwner(db, call, tenant) || !TookEffect(Effect(db, call).1) then Owners(db.members, tenant)
    else if MakesOwner(call) then Owners(db.members, tenant) + {call.target}
    else Owners(db.members, tenant) - {call.target}
  }

  lemma SameOwners(m: Members, m': Members, tenant: TenantId)
    requires forall u :: IsOwner(m, tenant, u) <==> IsOwner(m', tenant, u)
    ensures Owners(m, tenant) == Owners(m', tenant)
  {
  }

  lemma RoleNamedOwner(role: string)
    requires ValidRole(role)
    ensures RoleNamed(role).value == Owner <==> role == "owner"
  {
  }

  /** A change that passed the checks in front: by an owner, or by an admin and then the owners stay. */
  lemma ChangeByAllowed(db: Db, sub: Subject, target: UserId, intent: Intent, tenant: TenantId)
    requires OwnerOrAdmin(db.members, sub.tenantId, Caller(sub)) && target != Caller(sub)
    requires AdminRule(db.members, sub, target, intent == SetRole(Owner)) == Ok
    ensures var r := Changed(db.members, Key(sub.tenantId, target), intent);
            && r.1 != LastOwner
            && Owners(r.0, tenant) ==
                 (if tenant != sub.tenantId || r.1 != Ok || !IsOwner(db.members, tenant, Caller(sub)) then Owners(db.members, tenant)
                  else if intent == SetRole(Owner) then Owners(db.members, tenant) + {target}
                  else Owners(db.members, tenant) - {target})
  {
    var k := Key(sub.tenantId, target);
    LastOwnerIff(db.members, k, intent);
    OwnersWritten(db.members, k, intent);
    if tenant != sub.tenantId {
      OwnersElsewhere(db.members, k, intent, tenant);
    }
    assert IsOwner(db.members, sub.tenantId, Caller(sub)) ==> Owners(db.members, sub.tenantId) != {target};
    if !IsOwner(db.members, sub.tenantId, Caller(sub)) {
      assert target !in Owners(db.members, sub.tenantId);
      assert Owners(db.members, sub.tenantId) - {target} == Owners(db.members, sub.tenantId);
    }
  }

  predicate PassesChecks(db: Db, sub: Option<Subject>, target: UserId, role: string) {
    && Gate(db.members, sub, Authz.TENANT_MEMBER_UPDATE) == Ok && role != "" && ValidRole(role)
    && target != Caller(sub.value) && AdminRule(db.members, sub.value, target, role == "owner") == Ok
    && sub.value.tenantId in db.tenants
  }

  lemma RefusedChangesNothing(db: Db, sub: Option<Subject>, target: UserId, role: string, emailKnown: bool)
    requires !PassesChecks(db, sub, target, role)
    ensures RoleUpdated(db, sub, target, role, emailKnown).0 == db
    ensures !TookEffect(RoleUpdated(db, sub, target, role, emailKnown).1)
    ensures RoleUpdated(db, sub, target, role, emailKnown).1 != LastOwner
  {
  }

  lemma PassedIsAChange(db: Db, sub: Option<Subject>, target: UserId, role: string, emailKnown: bool)
    requires PassesChecks(db, sub, target, role)
    ensures var r := Changed(db.members, Key(sub.value.tenantId, target), SetRole(RoleNamed(role).value));
            RoleUpdated(db, sub, target, role, emailKnown) ==
              (db.(members := r.0), if r.1 == Ok && !emailKnown then EmailUnknown else r.1)
  {
  }

  lemma OwnersAfterRoleUpdate(db: Db, call: Call, tenant: TenantId)
    requires call.UpdateMemberRole?
    ensures Owners(Effect(db, call).0.members, tenant) == OwnersAfter(db, call, tenant)
    ensures Effect(db, call).1 != LastOwner
  {
    var sub, target, role := call.sub, call.target, call.role;
    if PassesChecks(db, sub, target, role) {
      PassedIsAChange(db, sub, target, role, call.emailKnown);
      RoleNamedOwner(role);
      ChangeByAllowed(db, sub.value, target, SetRole(RoleNamed(role).value), tenant);
    } else {
      RefusedChangesNothing(db, sub, target, role, call.emailKnown);
    }
  }

  lemma OwnersAfterRemoval(db: Db, call: Call, tenant: TenantId)
    requires call.RemoveMember?
    ensures Owners(Effect(db, call).0.members, tenant) == OwnersAfter(db, call, tenant)
    ensures Effect(db, call).1 != LastOwner
  {
    var sub, target := call.sub, call.target;
    if Gate(db.members, sub, Authz.TENANT_MEMBER_REMOVE) == Ok && target != Caller(sub.value)
       && AdminRule(db.members, sub.value, target, false) == Ok {
      ChangeByAllowed(db, sub.value, target, Remove, tenant);
    }
  }

  lemma OwnersAfterProvisioning(db: Db, call: Call, tenant: TenantId)
    requires WellFormed(db) && call.Provision?
    ensures Owners(Effect(db, call).0.members, tenant) == OwnersAfter(db, call, tenant)
  {
    var after := Effect(db, call).0.members;
    if Provisions(db, call, tenant) {
      forall u ensures IsOwner(after, tenant, u) <==> u == call.user {
        assert Key(tenant, u) in db.members ==> tenant in db.tenants;
      }
    } else {
      SameOwners(db.members, after, tenant);
    }
  }

  lemma OwnersAfterJoining(db: Db, call: Call, tenant: TenantId)
    requires WellFormed(db) && call.AcceptInvite?
    ensures Owners(Effect(db, call).0.members, tenant) == Owners(db.members, tenant)
  {
    SameOwners(db.members, Effect(db, call).0.members, tenant);
  }

  /** Exactly what any call does to the owners of any tenant. Accepting, creating and revoking invites and
      whatever an admin asks for leave them alone. */
  lemma OwnersAfterCall(db: Db, call: Call, tenant: TenantId)
    requires WellFormed(db)
    ensures Owners(Effect(db, call).0.members, tenant) == OwnersAfter(db, call, tenant)
  {
    match call
    case UpdateMemberRole(_, _, _, _) => OwnersAfterRoleUpdate(db, call, tenant);
    case RemoveMember(_, _) => OwnersAfterRemoval(db, call, tenant);
    case AcceptInvite(_, _, _, _) => OwnersAfterJoining(db, call, tenant);
    case Provision(_, _) => OwnersAfterProvisioning(db, call, tenant);
    case CreateInvite(_, _, _, _, _, _) =>
    case RevokeInvite(_, _) =>
  }

  /** The owner set changes only by provisioning a new tenant or by a call of an owner of that moment. */
  lemma OnlyOwnersChangeOwners(db: Db, call: Call, tenant: TenantId)
    requires WellFormed(db)
    requires Owners(Effect(db, call).0.members, tenant) != Owners(db.members, tenant)
    ensures (Provisions(db, call, tenant) && tenant !in db.tenants) || ByAnOwner(db, call, tenant)
  {
    OwnersAfterCall(db, call, tenant);
  }

  /** With calls one after the other the last-owner refusal is never given: only an owner can take an
      owner's role, only another's, so two are left. The guard earns its keep under concurrency alone. */
  lemma LastOwnerIsNeverAnswered(db: Db, call: Call)
    ensures Effect(db, call).1 != LastOwner
  {
    match call
    case UpdateMemberRole(_, _, _, _) => OwnersAfterRoleUpdate(db, call, "");
    case RemoveMember(_, _) => OwnersAfterRemoval(db, call, "");
    case _ =>
  }

  // ---------------------------------------------------------------- serial runs

  /** The database after the first n calls. */
  function Run(db: Db, calls: seq<Call>, n: nat): Db
    requires n <= |calls|
  {
    if n == 0 then db else Effect(Run(db, calls, n - 1), calls[n - 1]).0
  }

  /** Each of the first n calls that creates an invite does so under an unused identifier. */
  predicate FreshIds(db: Db, calls: seq<Call>, n: nat)
    requires n <= |calls|
  {
    n == 0 || (FreshIds(db, calls, n - 1) && FreshId(Run(db, calls, n - 1), calls[n - 1]))
  }

  lemma InvitingKeepsWellFormed(db: Db, call: Call)
    requires WellFormed(db) && FreshId(db, call) && (call.CreateInvite? || call.AcceptInvite? || call.RevokeInvite?)
    ensures WellFormed(Effect(db, call).0)
  {
  }

  lemma CallKeepsWellFormed(db: Db, call: Call)
    requires WellFormed(db) && FreshId(db, call)
    ensures WellFormed(Effect(db, call).0)
  {
    if call.CreateInvite? || call.AcceptInvite? || call.RevokeInvite? {
      InvitingKeepsWellFormed(db, call);
    }
  }

  lemma {:induction false} RunIsWellFormed(db: Db, calls: seq<Call>, n: nat)
    requires WellFormed(db) && n <= |calls| && FreshIds(db, calls, n)
    ensures WellFormed(Run(db, calls, n))
  {
    if n > 0 {
      RunIsWellFormed(db, calls, n - 1);
      CallKeepsWellFormed(Run(db, calls, n - 1), calls[n - 1]);
    }
  }

  /** At every point of every serial run: a changed owner set was changed by an owner or is a new tenant's. */
  lemma EveryOwnerChangeHasAnOwner(db: Db, calls: seq<Call>, n: nat, tenant: TenantId)
    requires WellFormed(db) && n < |calls| && FreshIds(db, calls, n)
    requires Owners(Run(db, calls, n + 1).members, tenant) != Owners(Run(db, calls, n).members, tenant)
    ensures var before := Run(db, calls, n);
            (Provisions(before, calls[n], tenant) && tenant !in before.tenants) || ByAnOwner(before, calls[n], tenant)
  {
    RunIsWellFormed(db, calls, n);
    OnlyOwnersChangeOwners(Run(db, calls, n), calls[n], tenant);
  }

  predicate EndedAs(db: Db, i: InviteId, invite: Invite) {
    invite.Ended() && i in db.invites && db.invites[i] == invite
  }

  lemma EndedInviteUnmoved(db: Db, call: Call, i: InviteId, invite: Invite)
    requires FreshId(db, call) && EndedAs(db, i, invite)
    ensures EndedAs(Effect(db, call).0, i, invite)
  {
  }

  lemma EndedInviteIsRefused(db: Db, call: Call, i: InviteId, invite: Invite)
    requires EndedAs(db, i, invite) && call.AcceptInvite? && call.found == Some(i)
    ensures Effect(db, call).1 != Ok
  {
  }

  /** An invite that ended stays as it ended through every serial run. */
  lemma {:induction false} EndedInviteStays(db: Db, calls: seq<Call>, n: nat, m: nat, i: InviteId, invite: Invite)
    requires n <= m <= |calls| && FreshIds(db, calls, m) && EndedAs(Run(db, calls, n), i, invite)
    ensures EndedAs(Run(db, calls, m), i, invite)
    decreases m
  {
    if m > n {
      EndedInviteStays(db, calls, n, m - 1, i, invite);
      EndedInviteUnmoved(Run(db, calls, m - 1), calls[m - 1], i, invite);
    }
  }

  /** And no later call of the run accepts it again. */
  lemma NeverAcceptedAgain(db: Db, calls: seq<Call>, n: nat, m: nat, i: InviteId, invite: Invite)
    requires n <= m < |calls| && FreshIds(db, calls, m) && EndedAs(Run(db, calls, n), i, invite)
    requires calls[m].AcceptInvite? && calls[m].found == Some(i)
    ensures Effect(Run(db, calls, m), calls[m]).1 != Ok
  {
    EndedInviteStays(db, calls, n, m, i, invite);
    EndedInviteIsRefused(Run(db, calls, m), calls[m], i, invite);
  }
}

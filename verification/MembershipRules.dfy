/** What the tenant service grants, in plain terms: who gets a call through, what it stores, and what an
    invitation comes to over a whole run. */
module MembershipRules {
  import opened Base
  import opened TenantDomain
  import opened Authn
  import Authz
  import opened Membership
  import opened TenantService
  import opened OwnerAuthority

  /** A person, logged in to a tenant as owner or admin by the token, and one of these still by the row. */
  predicate InCharge(db: Db, sub: Option<Subject>) {
    && sub.Some? && sub.value.kind != "agent" && sub.value.tenantId != ""
    && (sub.value.tenantRole == "owner" || sub.value.tenantRole == "admin")
    && Key(sub.value.tenantId, Caller(sub.value)) in db.members
    && db.members[Key(sub.value.tenantId, Caller(sub.value))] in {Owner, Admin}
  }

  lemma GateIff(db: Db, sub: Option<Subject>, action: string)
    requires action == "tenant:member:update" || action == "tenant:member:remove"
             || action == "tenant:invite:create" || action == "tenant:invite:revoke"
    ensures Gate(db.members, sub, action) == Ok <==> InCharge(db, sub)
  {
    Authz.InviteOrMemberVerb(action);
  }

  /** Somebody in charge may change another member of the tenant; admins touch no owner and make none. */
  predicate MayChange(db: Db, sub: Option<Subject>, target: UserId, makesOwner: bool) {
    && InCharge(db, sub) && sub.value.tenantId in db.tenants && target != Caller(sub.value)
    && Key(sub.value.tenantId, target) in db.members
    && (db.members[Key(sub.value.tenantId, Caller(sub.value))] == Admin ==>
          !makesOwner && db.members[Key(sub.value.tenantId, target)] != Owner)
  }

  /** Whoever may change the target is not the last owner's undoing. */
  lemma AnotherOwnerStays(db: Db, sub: Option<Subject>, target: UserId, intent: Intent)
    requires MayChange(db, sub, target, intent == SetRole(Owner))
    ensures Changed(db.members, Key(sub.value.tenantId, target), intent).1 == Ok
  {
    ChangeExactly(db.members, Key(sub.value.tenantId, target), intent);
    assert IsOwner(db.members, sub.value.tenantId, target) ==> Caller(sub.value) in Owners(db.members, sub.value.tenantId);
  }

  /** A role change takes effect exactly for those who may ask for it with a role that exists, and then stores
      that role; whether the email lookup afterwards succeeds changes the answer and not the effect. */
  lemma RoleChangeIff(db: Db, sub: Option<Subject>, target: UserId, role: string, emailKnown: bool)
    ensures var (db', answer) := RoleUpdated(db, sub, target, role, emailKnown);
            && (TookEffect(answer) <==> MayChange(db, sub, target, role == "owner") && RoleNamed(role).Some?)
            && (TookEffect(answer) ==>
                  && db' == db.(members := db.members[Key(sub.value.tenantId, target) := RoleNamed(role).value])
                  && (answer == Ok <==> emailKnown))
            && (!TookEffect(answer) ==> db' == db)
  {
    GateIff(db, sub, "tenant:member:update");
    if RoleNamed(role).Some? {
      RoleNamesReadBack(RoleNamed(role).value, role);
      if sub.Some? {
        ChangeExactly(db.members, Key(sub.value.tenantId, target), SetRole(RoleNamed(role).value));
      }
      if MayChange(db, sub, target, role == "owner") {
        AnotherOwnerStays(db, sub, target, SetRole(RoleNamed(role).value));
      }
    }
  }

  lemma RemovalIff(db: Db, sub: Option<Subject>, target: UserId)
    ensures var (db', answer) := MemberRemoved(db, sub, target);
            && (answer == Ok <==> MayChange(db, sub, target, false))
            && db' == if answer == Ok then db.(members := db.members - {Key(sub.value.tenantId, target)}) else db
  {
    GateIff(db, sub, "tenant:member:remove");
    if sub.Some? {
      ChangeExactly(db.members, Key(sub.value.tenantId, target), Remove);
    }
    if MayChange(db, sub, target, false) {
      AnotherOwnerStays(db, sub, target, Remove);
    }
  }

  /** An invitation stands for a week, for one address, and never makes an owner. */
  lemma InvitationIff(db: Db, sub: Option<Subject>, id: InviteId, email: string, wellFormed: bool, role: string, now: int)
    ensures var (db', answer) := Invited(db, sub, id, email, wellFormed, role, now);
            && (answer == Ok <==> InCharge(db, sub) && sub.value.tenantId in db.tenants && wellFormed
                                  && RoleNamed(role).Some? && role != "owner")
            && db' == if answer != Ok then db
                      else db.(invites := db.invites[id := Invite(sub.value.tenantId, RoleNamed(role).value, email,
                                                                  Caller(sub.value), now + 604_800_000_000_000, None, None)])
  {
    GateIff(db, sub, "tenant:invite:create");
  }

  lemma AcceptanceIff(db: Db, sub: Option<Subject>, token: string, found: Option<InviteId>, now: int)
    ensures var (db', answer) := Joined(db, sub, token, found, now);
            && (answer == Ok <==> sub.Some? && sub.value.kind != "agent" && token != ""
                                  && Acceptable(db, found, Caller(sub.value), now))
            && (answer != Ok ==> db' == db)
            && (answer == Ok ==>
                  var i := db.invites[found.value];
                  db' == db.(members := db.members[Key(i.tenant, Caller(sub.value)) := i.role],
                             invites := db.invites[found.value := i.(acceptedBy := Some(Caller(sub.value)))]))
  {
    Authz.InviteOrMemberVerb("tenant:invite:accept");
  }

  lemma RevocationIff(db: Db, sub: Option<Subject>, invite: InviteId)
    ensures var (db', answer) := Cancelled(db, sub, invite);
            && (answer == Ok <==> InCharge(db, sub) && sub.value.tenantId in db.tenants && invite in db.invites
                                  && db.invites[invite].tenant == sub.value.tenantId && db.invites[invite].acceptedBy.None?)
            && db' == if answer != Ok || db.invites[invite].revokedBy.Some? then db
                      else db.(invites := db.invites[invite := db.invites[invite].(revokedBy := Some(Caller(sub.value)))])
  {
    GateIff(db, sub, "tenant:invite:revoke");
  }

  // ---------------------------------------------------------------- an invitation over a whole run

  /** Everything about an invite but how it ended. */
  predicate SameTerms(a: Invite, b: Invite) {
    a.tenant == b.tenant && a.role == b.role && a.email == b.email && a.invitedBy == b.invitedBy && a.expiresAt == b.expiresAt
  }

  lemma TermsStay(db: Db, call: Call, i: InviteId)
    requires FreshId(db, call) && i in db.invites
    ensures i in Effect(db, call).0.invites && SameTerms(db.invites[i], Effect(db, call).0.invites[i])
  {
  }

  lemma {:induction false} TermsStayThroughout(db: Db, calls: seq<Call>, n: nat, i: InviteId)
    requires n <= |calls| && FreshIds(db, calls, n) && i in db.invites
    ensures i in Run(db, calls, n).invites && SameTerms(db.invites[i], Run(db, calls, n).invites[i])
  {
    if n > 0 {
      TermsStayThroughout(db, calls, n - 1, i);
      TermsStay(Run(db, calls, n - 1), calls[n - 1], i);
    }
  }

  lemma InvitedUnder(db: Db, call: Call)
    requires call.CreateInvite? && Effect(db, call).1 == Ok
    ensures call.sub.Some? && RoleNamed(call.role).Some? && call.newId in Effect(db, call).0.invites
    ensures SameTerms(Effect(db, call).0.invites[call.newId],
                      Invite(call.sub.value.tenantId, RoleNamed(call.role).value, call.email, Caller(call.sub.value),
                             call.now + 604_800_000_000_000, None, None))
  {
    InvitationIff(db, call.sub, call.newId, call.email, call.wellFormed, call.role, call.now);
  }

  lemma AcceptedUnder(db: Db, call: Call, i: InviteId)
    requires call.AcceptInvite? && call.found == Some(i) && Effect(db, call).1 == Ok
    ensures call.sub.Some? && i in db.invites
    ensures var invite, user := db.invites[i], Caller(call.sub.value);
            && Key(invite.tenant, user) !in db.members
            && Effect(db, call).0.members == db.members[Key(invite.tenant, user) := invite.role]
            && user in db.users && db.users[user].email == invite.email && call.now <= invite.expiresAt
            && Key(invite.tenant, invite.invitedBy) in db.members
            && db.members[Key(invite.tenant, invite.invitedBy)] in {Owner, Admin}
  {
    AcceptanceIff(db, call.sub, call.token, call.found, call.now);
  }

  /** The acceptance `a` gave its caller what the invitation `c` offered: the very role its sender named, at the
      address it was sent to, within the week, and with the sender still entitled to send it. */
  ghost predicate JoinedUnder(before: Db, after: Db, c: Call, a: Call) {
    && c.CreateInvite? && c.sub.Some? && RoleNamed(c.role).Some? && a.AcceptInvite? && a.sub.Some?
    && var tenant, sender, user := c.sub.value.tenantId, Caller(c.sub.value), Caller(a.sub.value);
       && Key(tenant, user) !in before.members
       && after.members == before.members[Key(tenant, user) := RoleNamed(c.role).value]
       && user in before.users && before.users[user].email == c.email
       && a.now <= c.now + 604_800_000_000_000
       && Key(tenant, sender) in before.members && before.members[Key(tenant, sender)] in {Owner, Admin}
  }

  lemma SameInviteJoins(sent: Db, before: Db, c: Call, a: Call)
    requires c.CreateInvite? && Effect(sent, c).1 == Ok && c.newId in Effect(sent, c).0.invites
    requires c.newId in before.invites && SameTerms(Effect(sent, c).0.invites[c.newId], before.invites[c.newId])
    requires a.AcceptInvite? && a.found == Some(c.newId) && Effect(before, a).1 == Ok
    ensures JoinedUnder(before, Effect(before, a).0, c, a)
  {
    InvitedUnder(sent, c);
    AcceptedUnder(before, a, c.newId);
  }

  /** Whatever calls come in between, whoever gets in by an invitation gets in as invited. */
  lemma JoinedAsInvited(sent: Db, c: Call, calls: seq<Call>, a: Call)
    requires c.CreateInvite? && Effect(sent, c).1 == Ok && FreshIds(Effect(sent, c).0, calls, |calls|)
    requires a.AcceptInvite? && a.found == Some(c.newId) && Effect(Run(Effect(sent, c).0, calls, |calls|), a).1 == Ok
    ensures var before := Run(Effect(sent, c).0, calls, |calls|); JoinedUnder(before, Effect(before, a).0, c, a)
  {
    InvitedUnder(sent, c);
    TermsStayThroughout(Effect(sent, c).0, calls, |calls|, c.newId);
    SameInviteJoins(sent, Run(Effect(sent, c).0, calls, |calls|), c, a);
  }
}

/** Tenants, memberships and invites, one call at a time. Users are numbered, so that rows have an order. */
module Membership {
  import opened Base
  import opened TenantDomain

  type TenantId = string   // the slug
  type UserId = nat
  type InviteId = nat

  const SLUG_ATTEMPTS: nat := 5

  datatype Key = Key(tenant: TenantId, user: UserId)

  type Members = map<Key, Role>

  datatype Invite = Invite(tenant: TenantId, role: Role, email: string, invitedBy: UserId, expiresAt: int,
                           acceptedBy: Option<UserId>, revokedBy: Option<UserId>)
  {
    predicate Ended() { acceptedBy.Some? || revokedBy.Some? }
  }

  datatype User = User(email: string, deleted: bool)

  datatype Db = Db(tenants: set<TenantId>, members: Members, invites: map<InviteId, Invite>, users: map<UserId, User>)

  /** A change asked for one member. */
  datatype Intent = SetRole(role: Role) | Remove

  datatype Answer =
    | Ok | Unauthorized | Forbidden | NoActiveTenant | NotFound | ValidationFailed
    | RoleInvalid | SelfOperation | CannotAssignOwner | LastOwner | EmailUnknown
    | InviteNotFound | InviteUsed | InviteRevoked | InviteExpired | InviterRevoked | EmailMismatch | AlreadyMember

  predicate IsOwner(m: Members, tenant: TenantId, u: UserId) {
    Key(tenant, u) in m && m[Key(tenant, u)] == Owner
  }

  function Owners(m: Members, tenant: TenantId): (owners: set<UserId>)
    ensures forall u :: u in owners <==> IsOwner(m, tenant, u)
  {
    var owners := set k | k in m && k.tenant == tenant && m[k] == Owner :: k.user;
    assert forall u :: IsOwner(m, tenant, u) ==> Key(tenant, u).user in owners;
    owners
  }

  predicate OwnerOrAdmin(m: Members, tenant: TenantId, u: UserId) {
    Key(tenant, u) in m && (m[Key(tenant, u)] == Owner || m[Key(tenant, u)] == Admin)
  }

  // ---------------------------------------------------------------- what each call does

  function Written(m: Members, k: Key, intent: Intent): Members {
    match intent
    case SetRole(role) => m[k := role]
    case Remove => m - {k}
  }

  /** A role change or a removal; the last owner may not lose the role. */
  function Changed(m: Members, k: Key, intent: Intent): (Members, Answer) {
    if k !in m then (m, NotFound)
    else if m[k] == Owner && intent != SetRole(Owner) && |Owners(m, k.tenant)| <= 1 then (m, LastOwner)
    else (Written(m, k, intent), Ok)
  }

  /** Why an invite cannot be accepted by this user now, reasons in their order of precedence. */
  function Obstacle(m: Members, invite: Invite, user: UserId, email: string, now: int): Answer {
    if invite.acceptedBy.Some? then InviteUsed
    else if invite.revokedBy.Some? then InviteRevoked
    else if now > invite.expiresAt then InviteExpired
    else if !OwnerOrAdmin(m, invite.tenant, invite.invitedBy) then InviterRevoked
    else if invite.email != email then EmailMismatch
    else if Key(invite.tenant, user) in m then AlreadyMember
    else Ok
  }

  function Accepted(db: Db, invite: Option<InviteId>, user: UserId, now: int): (Db, Answer) {
    if invite.None? || invite.value !in db.invites || user !in db.users || db.users[user].deleted then (db, InviteNotFound)
    else
      var i := db.invites[invite.value];
      var answer := Obstacle(db.members, i, user, db.users[user].email, now);
      if answer != Ok then (db, answer)
      else (db.(members := db.members[Key(i.tenant, user) := i.role],
                invites := db.invites[invite.value := i.(acceptedBy := Some(user))]), Ok)
  }

  /** Revoking twice is the same as revoking once. */
  function Revoked(db: Db, tenant: TenantId, invite: InviteId, revoker: UserId): (Db, Answer) {
    if invite !in db.invites || db.invites[invite].tenant != tenant then (db, InviteNotFound)
    else if db.invites[invite].acceptedBy.Some? then (db, InviteUsed)
    else if db.invites[invite].revokedBy.Some? then (db, Ok)
    else (db.(invites := db.invites[invite := db.invites[invite].(revokedBy := Some(revoker))]), Ok)
  }

  /** The first generated slug not taken yet; none if the generator fails first or every attempt collides. */
  function FreeSlug(slugs: seq<Option<TenantId>>, taken: set<TenantId>): (slug: Option<TenantId>)
    ensures slug.Some? ==> slug.value !in taken
  {
    if slugs == [] || slugs[0].None? then None
    else if slugs[0].value in taken then FreeSlug(slugs[1..], taken)
    else slugs[0]
  }

  function Provisioned(db: Db, user: UserId, slugs: seq<Option<TenantId>>): (Db, Option<TenantId>) {
    var slug := FreeSlug(slugs, db.tenants);
    if slug.None? then (db, None)
    else (db.(tenants := db.tenants + {slug.value}, members := db.members[Key(slug.value, user) := Owner]), slug)
  }

  /** Somebody may take up this invite now: it is open and unexpired, whoever sent it is still owner or admin
      there, it was sent to this user's address, and the user is not a member yet. */
  predicate Acceptable(db: Db, invite: Option<InviteId>, user: UserId, now: int) {
    && invite.Some? && invite.value in db.invites && user in db.users && !db.users[user].deleted
    && var i := db.invites[invite.value];
       && i.acceptedBy.None? && i.revokedBy.None? && now <= i.expiresAt
       && Key(i.tenant, i.invitedBy) in db.members && db.members[Key(i.tenant, i.invitedBy)] in {Owner, Admin}
       && i.email == db.users[user].email && Key(i.tenant, user) !in db.members
  }

  // ---------------------------------------------------------------- the repository

  class Repository {
    var tenants: set<TenantId>
    var members: Members
    var invites: map<InviteId, Invite>
    var users: map<UserId, User>

    ghost function Snapshot(): Db
      reads this
    {
      Db(tenants, members, invites, users)
    }

    /** Walks the owner rows and counts them. */
    method LockOwnersOrdered(tenant: TenantId) returns (count: nat)
      ensures count == |Owners(members, tenant)|
    {
      var rows := Owners(members, tenant);
      count := 0;
      while rows != {}
        invariant count + |rows| == |Owners(members, tenant)|
        decreases |rows|
      {
        var u :| u in rows;
        rows := rows - {u};
        count := count + 1;
      }
    }

    method UpdateMemberRole(tenant: TenantId, target: UserId, newRole: Role) returns (answer: Answer)
      modifies this`members
      ensures (members, answer) == Changed(old(members), Key(tenant, target), SetRole(newRole))
      ensures answer == Ok ==> Key(tenant, target) in old(members) && members == old(members)[Key(tenant, target) := newRole]
      ensures answer != Ok ==> members == old(members)
      ensures answer == NotFound <==> Key(tenant, target) !in old(members)
      ensures answer == LastOwner <==> Owners(old(members), tenant) == {target} && newRole != Owner
      ensures answer == Ok || answer == NotFound || answer == LastOwner
    {
      ChangeExactly(members, Key(tenant, target), SetRole(newRole));
      var ownerCount := LockOwnersOrdered(tenant);
      if Key(tenant, target) !in members {
        return NotFound;
      }
      var currentRole := members[Key(tenant, target)];
      if currentRole == Owner && newRole != Owner {
        if ownerCount <= 1 {
          return LastOwner;
        }
      }
      members := members[Key(tenant, target) := newRole];
      return Ok;
    }

    method RemoveMember(tenant: TenantId, target: UserId) returns (answer: Answer)
      modifies this`members
      ensures (members, answer) == Changed(old(members), Key(tenant, target), Remove)
      ensures answer == Ok ==> Key(tenant, target) in old(members) && members == old(members) - {Key(tenant, target)}
      ensures answer != Ok ==> members == old(members)
      ensures answer == NotFound <==> Key(tenant, target) !in old(members)
      ensures answer == LastOwner <==> Owners(old(members), tenant) == {target}
      ensures answer == Ok || answer == NotFound || answer == LastOwner
    {
      ChangeExactly(members, Key(tenant, target), Remove);
      var ownerCount := LockOwnersOrdered(tenant);
      if Key(tenant, target) !in members {
        return NotFound;
      }
      if members[Key(tenant, target)] == Owner {
        if ownerCount <= 1 {
          return LastOwner;
        }
      }
      members := members - {Key(tenant, target)};
      return Ok;
    }

    method AcceptInvite(invite: Option<InviteId>, user: UserId, now: int) returns (answer: Answer)
      modifies this`members, this`invites
      ensures (Snapshot(), answer) == Accepted(old(Snapshot()), invite, user, now)
      ensures answer == Ok <==> Acceptable(old(Snapshot()), invite, user, now)
      ensures answer == Ok ==>
                var i := old(invites[invite.value]);
                && members == old(members)[Key(i.tenant, user) := i.role]
                && invites == old(invites)[invite.value := i.(acceptedBy := Some(user))]
      ensures answer != Ok ==> members == old(members) && invites == old(invites)
    {
      if invite.None? || invite.value !in invites || user !in users || users[user].deleted {
        return InviteNotFound;
      }
      var i := invites[invite.value];
      var inviterOk := OwnerOrAdmin(members, i.tenant, i.invitedBy);
      if i.acceptedBy.Some? {
        return InviteUsed;
      }
      if i.revokedBy.Some? {
        return InviteRevoked;
      }
      if now > i.expiresAt {
        return InviteExpired;
      }
      if !inviterOk {
        return InviterRevoked;
      }
      if i.email != users[user].email {
        return EmailMismatch;
      }
      if Key(i.tenant, user) in members {
        return AlreadyMember;
      }
      members := members[Key(i.tenant, user) := i.role];
      invites := invites[invite.value := i.(acceptedBy := Some(user))];
      return Ok;
    }

    method RevokeInvite(tenant: TenantId, invite: InviteId, revoker: UserId) returns (answer: Answer)
      modifies this`invites
      ensures (Snapshot(), answer) == Revoked(old(Snapshot()), tenant, invite, revoker)
      ensures answer == Ok <==>
                invite in old(invites) && old(invites[invite]).tenant == tenant && old(invites[invite]).acceptedBy.None?
      ensures answer == Ok ==> invite in invites && invites[invite].revokedBy.Some?
                               && invites == old(invites)[invite := old(invites[invite]).(revokedBy := invites[invite].revokedBy)]
      ensures answer == Ok && old(invites[invite]).revokedBy.None? ==> invites[invite].revokedBy == Some(revoker)
      ensures answer == Ok && old(invites[invite]).revokedBy.Some? ==> invites == old(invites)
      ensures answer != Ok ==> invites == old(invites)
    {
      if invite !in invites || invites[invite].tenant != tenant {
        return InviteNotFound;
      }
      if invites[invite].acceptedBy.Some? {
        return InviteUsed;
      }
      if invites[invite].revokedBy.Some? {
        return Ok;
      }
      invites := invites[invite := invites[invite].(revokedBy := Some(revoker))];
      return Ok;
    }

    method CreateInvite(id: InviteId, invite: Invite)
      requires id !in invites
      modifies this`invites
      ensures invites == old(invites)[id := invite]
    {
      invites := invites[id := invite];
    }

    /** slugs is what the generator would answer on each attempt. */
    method ProvisionOwner(user: UserId, slugs: seq<Option<TenantId>>) returns (slug: Option<TenantId>)
      requires |slugs| == 5
      modifies this`tenants, this`members
      ensures (Snapshot(), slug) == Provisioned(old(Snapshot()), user, slugs)
      ensures slug.Some? <==> exists k: nat, free: TenantId :: FirstFresh(slugs, old(tenants), free, k)
      ensures slug.Some? ==>
                && (exists k :: FirstFresh(slugs, old(tenants), slug.value, k))
                && tenants == old(tenants) + {slug.value} && members == old(members)[Key(slug.value, user) := Owner]
      ensures slug.None? ==> tenants == old(tenants) && members == old(members)
    {
      FreshSlugExists(slugs, tenants);
      for attempt := 0 to SLUG_ATTEMPTS
        invariant FreeSlug(slugs[attempt..], tenants) == FreeSlug(slugs, tenants)
        invariant Snapshot() == old(Snapshot())
      {
        assert slugs[attempt..][1..] == slugs[attempt + 1..];
        slug := slugs[attempt];
        if slug.None? {
          return None;
        }
        if slug.value !in tenants {
          tenants := tenants + {slug.value};
          members := members[Key(slug.value, user) := Owner];
          return slug;
        }
      }
      slug := None;
    }
  }

  // ---------------------------------------------------------------- properties of single calls

  /** Attempt k is the first that did not collide. */
  ghost predicate FirstFresh(slugs: seq<Option<TenantId>>, taken: set<TenantId>, slug: TenantId, k: nat) {
    && k < |slugs| && slugs[k] == Some(slug) && slug !in taken
    && forall j :: 0 <= j < k ==> slugs[j].Some? && slugs[j].value in taken
  }

  lemma {:induction false} FirstFreshFound(slugs: seq<Option<TenantId>>, taken: set<TenantId>, slug: TenantId, k: nat)
    requires FirstFresh(slugs, taken, slug, k)
    ensures FreeSlug(slugs, taken) == Some(slug)
  {
    if k > 0 {
      assert slugs[0].Some? && slugs[0].value in taken;
      FirstFreshFound(slugs[1..], taken, slug, k - 1);
    }
  }

  lemma {:induction false} FoundIsFirstFresh(slugs: seq<Option<TenantId>>, taken: set<TenantId>, slug: TenantId) returns (k: nat)
    requires FreeSlug(slugs, taken) == Some(slug)
    ensures FirstFresh(slugs, taken, slug, k)
  {
    k := 0;
    if slugs[0].value in taken {
      k := FoundIsFirstFresh(slugs[1..], taken, slug);
      assert forall j :: 0 < j < |slugs| ==> slugs[j] == slugs[1..][j - 1];
      k := k + 1;
    }
  }

  lemma FreshSlugExists(slugs: seq<Option<TenantId>>, taken: set<TenantId>)
    ensures FreeSlug(slugs, taken).Some? <==> exists k, slug :: FirstFresh(slugs, taken, slug, k)
    ensures FreeSlug(slugs, taken).Some? ==> exists k :: FirstFresh(slugs, taken, FreeSlug(slugs, taken).value, k)
  {
    if FreeSlug(slugs, taken).Some? {
      var k := FoundIsFirstFresh(slugs, taken, FreeSlug(slugs, taken).value);
    }
    if k, slug :| FirstFresh(slugs, taken, slug, k) {
      FirstFreshFound(slugs, taken, slug, k);
    }
  }

  /** Provisioning succeeds exactly when some attempt is fresh and every earlier one collided. */
  lemma FreeSlugIff(slugs: seq<Option<TenantId>>, taken: set<TenantId>, slug: TenantId)
    ensures FreeSlug(slugs, taken) == Some(slug) <==> exists k :: FirstFresh(slugs, taken, slug, k)
  {
    if FreeSlug(slugs, taken) == Some(slug) {
      var k := FoundIsFirstFresh(slugs, taken, slug);
    }
    if k :| FirstFresh(slugs, taken, slug, k) {
      FirstFreshFound(slugs, taken, slug, k);
    }
  }

  lemma OwnersWritten(m: Members, k: Key, intent: Intent)
    ensures Owners(Written(m, k, intent), k.tenant)
            == (if intent == SetRole(Owner) then Owners(m, k.tenant) + {k.user} else Owners(m, k.tenant) - {k.user})
  {
    forall u ensures IsOwner(Written(m, k, intent), k.tenant, u) <==>
                       if u == k.user then intent == SetRole(Owner) else IsOwner(m, k.tenant, u)
    {
    }
  }

  lemma OwnersElsewhere(m: Members, k: Key, intent: Intent, other: TenantId)
    requires other != k.tenant
    ensures Owners(Written(m, k, intent), other) == Owners(m, other)
  {
    forall u ensures IsOwner(Written(m, k, intent), other, u) <==> IsOwner(m, other, u) {
    }
  }

  lemma OnlyElement<T>(s: set<T>, x: T)
    requires x in s
    ensures |s| <= 1 <==> s == {x}
  {
    assert s == (s - {x}) + {x};
  }

  /** A change is refused for the last owner's sake exactly when the target is the only owner and would
      stop being one; so no change ever leaves an owned tenant without an owner. */
  lemma LastOwnerIff(m: Members, k: Key, intent: Intent)
    ensures Changed(m, k, intent).1 == LastOwner <==> Owners(m, k.tenant) == {k.user} && intent != SetRole(Owner)
    ensures Owners(m, k.tenant) != {} ==> Owners(Changed(m, k, intent).0, k.tenant) != {}
  {
    var owners := Owners(m, k.tenant);
    OwnersWritten(m, k, intent);
    if k.user in owners {
      OnlyElement(owners, k.user);
    }
  }

  /** What is stored: the very role asked for, or no row; nothing else moves, and a refusal moves nothing. */
  lemma ChangeExactly(m: Members, k: Key, intent: Intent)
    ensures var (m', answer) := Changed(m, k, intent);
            && (answer == NotFound <==> k !in m)
            && (answer == LastOwner <==> Owners(m, k.tenant) == {k.user} && intent != SetRole(Owner))
            && (answer == Ok || answer == NotFound || answer == LastOwner)
            && (answer != Ok ==> m' == m)
            && (answer == Ok && intent.SetRole? ==> m' == m[k := intent.role])
            && (answer == Ok && intent.Remove? ==> m' == m - {k})
  {
    LastOwnerIff(m, k, intent);
    assert k !in m ==> k.user !in Owners(m, k.tenant);
  }
}

/** Tenant membership under row locks, in Read Committed: any number of role changes, removals, invite
    acceptances, revocations and provisionings, interleaved statement by statement.

    A statement that locks a row waits for its holder and then sees the row's latest committed version.
    Writes become visible at commit, in one step. The list of owners a transaction locks is the result of
    an earlier snapshot, so it may be any ascending list of users. */
module MembershipProtocol {
  import opened Base
  import opened TenantDomain
  import opened Membership

  type TxId = nat

  datatype Tx =
    // role change or removal: live and seen are what the service read beforehand
    | Change(tenant: TenantId, target: UserId, intent: Intent, live: Role, seen: Option<Role>,
             scan: seq<UserId>, next: nat, verified: set<UserId>, locked: Option<Role>)
    // what the invite lookup returned under the invite's lock, and the other tables' side of it
    | Accepting(invite: InviteId, user: UserId, used: bool, cancelled: bool, valid: bool)
    | Revoking(invite: InviteId, revoker: UserId, used: bool, cancelled: bool)

  datatype State = State(
    members: Members,
    tenants: set<TenantId>,
    invites: map<InviteId, Invite>,
    rowLocks: map<Key, TxId>,
    inviteLocks: map<InviteId, TxId>,
    txs: map<TxId, Tx>,
    joins: seq<(InviteId, UserId)>)   // every membership that came from an invite

  datatype Step =
    | Begin(tx: TxId, tenant: TenantId, actor: UserId, target: UserId, intent: Intent, live: Role, seen: Option<Role>,
            scan: seq<UserId>)
    | LockNext(tx: TxId)
    | LockTarget(tx: TxId)
    | Commit(tx: TxId)
    | Abort(tx: TxId)
    | CreateInvite(id: InviteId, invite: Invite)
    | BeginAccept(tx: TxId, inviteId: InviteId, user: UserId, email: string, now: int)
    | BeginRevoke(tx: TxId, inviteId: InviteId, actor: UserId)
    | Provision(newTenant: TenantId, user: UserId)

  // ---------------------------------------------------------------- the service's check before the transaction

  /** Owners may do anything here to others; admins may not assign owner nor touch a member they saw as owner. */
  predicate ServicePasses(live: Role, seen: Option<Role>, intent: Intent) {
    match live
    case Owner => seen.None?
    case Admin => seen.Some? && seen.value != Owner && intent != SetRole(Owner)
    case _ => false
  }

  ghost predicate Ascending(ids: seq<UserId>) {
    forall i, j :: 0 <= i < j < |ids| ==> ids[i] < ids[j]
  }

  // ---------------------------------------------------------------- steps

  predicate IsChange(s: State, tx: TxId) { tx in s.txs && s.txs[tx].Change? }

  predicate Free(s: State, k: Key, tx: TxId) { k in s.rowLocks ==> s.rowLocks[k] == tx }

  function Released<K>(locks: map<K, TxId>, tx: TxId): map<K, TxId> {
    map k | k in locks && locks[k] != tx :: locks[k]
  }

  function Ended(s: State, tx: TxId): State {
    s.(rowLocks := Released(s.rowLocks, tx), inviteLocks := Released(s.inviteLocks, tx), txs := s.txs - {tx})
  }

  /** The next row this transaction must lock, while it still has one to lock. */
  function Wanted(t: Tx): Option<Key>
    requires t.Change?
  {
    if t.next < |t.scan| then Some(Key(t.tenant, t.scan[t.next]))
    else if t.locked.None? then Some(Key(t.tenant, t.target))
    else None
  }

  /** currentRole == owner and the change takes that away, with at most one owner counted. */
  predicate LastOwner(t: Tx)
    requires t.Change?
  {
    t.locked == Some(Owner) && t.intent != SetRole(Owner) && |t.verified| <= 1
  }

  /** Unexpired, the inviter still entitled, the address the invited one. */
  predicate StillValid(m: Members, invite: Invite, email: string, now: int) {
    now <= invite.expiresAt && OwnerOrAdmin(m, invite.tenant, invite.invitedBy) && invite.email == email
  }

  ghost predicate Enabled(s: State, step: Step) {
    match step
    case Begin(tx, _, actor, target, intent, live, seen, scan) =>
      tx !in s.txs && actor != target && ServicePasses(live, seen, intent) && Ascending(scan)
    case LockNext(tx) =>
      IsChange(s, tx) && s.txs[tx].next < |s.txs[tx].scan| &&
      (Wanted(s.txs[tx]).value in s.members ==> Free(s, Wanted(s.txs[tx]).value, tx))
    case LockTarget(tx) =>
      IsChange(s, tx) && s.txs[tx].next >= |s.txs[tx].scan| && s.txs[tx].locked.None? &&
      (Wanted(s.txs[tx]).value in s.members ==> Free(s, Wanted(s.txs[tx]).value, tx))
    case Commit(tx) => tx in s.txs && (s.txs[tx].Change? ==> s.txs[tx].locked.Some?)
    case Abort(tx) => tx in s.txs
    case CreateInvite(id, invite) =>
      id !in s.invites && InvitableRole(RoleName(invite.role)) && !invite.Ended()
    case BeginAccept(tx, id, _, _, _) => tx !in s.txs && id in s.invites && id !in s.inviteLocks
    case BeginRevoke(tx, id, _) => tx !in s.txs && id in s.invites && id !in s.inviteLocks
    case Provision(tenant, _) => tenant !in s.tenants && forall u :: Key(tenant, u) !in s.members
  }

  ghost function Apply(s: State, step: Step): State
    requires Enabled(s, step)
  {
    match step
    case Begin(tx, tenant, _, target, intent, live, seen, scan) =>
      s.(txs := s.txs[tx := Change(tenant, target, intent, live, seen, scan, 0, {}, None)])
    case LockNext(tx) =>
      var t := s.txs[tx];
      var k := Wanted(t).value;
      if k !in s.members then s.(txs := s.txs[tx := t.(next := t.next + 1)])
      else s.(rowLocks := s.rowLocks[k := tx],
              txs := s.txs[tx := t.(next := t.next + 1,
                                    verified := if s.members[k] == Owner then t.verified + {k.user} else t.verified)])
    case LockTarget(tx) =>
      var k := Wanted(s.txs[tx]).value;
      if k !in s.members then Ended(s, tx)
      else s.(rowLocks := s.rowLocks[k := tx], txs := s.txs[tx := s.txs[tx].(locked := Some(s.members[k]))])
    case Commit(tx) =>
      (match s.txs[tx]
       case Change(_, _, _, _, _, _, _, _, _) =>
         if LastOwner(s.txs[tx]) then Ended(s, tx)
         else Ended(s.(members := Written(s.members, Key(s.txs[tx].tenant, s.txs[tx].target), s.txs[tx].intent)), tx)
       case Accepting(id, user, used, cancelled, valid) =>
         if id !in s.invites || used || cancelled || !valid || Key(s.invites[id].tenant, user) in s.members
         then Ended(s, tx)
         else Ended(s.(members := s.members[Key(s.invites[id].tenant, user) := s.invites[id].role],
                       invites := s.invites[id := s.invites[id].(acceptedBy := Some(user))],
                       joins := s.joins + [(id, user)]), tx)
       case Revoking(id, actor, used, cancelled) =>
         if id !in s.invites || used || cancelled then Ended(s, tx)
         else Ended(s.(invites := s.invites[id := s.invites[id].(revokedBy := Some(actor))]), tx))
    case Abort(tx) => Ended(s, tx)
    case CreateInvite(id, invite) => s.(invites := s.invites[id := invite])
    case BeginAccept(tx, id, user, email, now) =>
      s.(inviteLocks := s.inviteLocks[id := tx],
         txs := s.txs[tx := Accepting(id, user, s.invites[id].acceptedBy.Some?, s.invites[id].revokedBy.Some?,
                                      StillValid(s.members, s.invites[id], email, now))])
    case BeginRevoke(tx, id, actor) =>
      s.(inviteLocks := s.inviteLocks[id := tx],
         txs := s.txs[tx := Revoking(id, actor, s.invites[id].acceptedBy.Some?, s.invites[id].revokedBy.Some?)])
    case Provision(tenant, user) =>
      s.(tenants := s.tenants + {tenant}, members := s.members[Key(tenant, user) := Owner])
  }

  /** The state `steps` lead to from `s`. */
  ghost function Exec(s: State, steps: seq<Step>): Option<State> {
    if steps == [] then Some(s)
    else
      var r := Exec(s, steps[..|steps| - 1]);
      if r.Some? && Enabled(r.value, steps[|steps| - 1]) then Some(Apply(r.value, steps[|steps| - 1])) else None
  }

  /** No transaction under way, and no invite ended both ways or granting ownership. */
  ghost predicate Quiet(s: State) {
    && s.rowLocks == map[] && s.inviteLocks == map[] && s.txs == map[] && s.joins == []
    && forall i :: i in s.invites ==> s.invites[i].role != Owner && !(s.invites[i].acceptedBy.Some? && s.invites[i].revokedBy.Some?)
  }

  // ---------------------------------------------------------------- what every step keeps

  ghost predicate TxOk(s: State, tx: TxId) {
    tx in s.txs ==>
      match s.txs[tx]
      case Change(tenant, target, intent, live, seen, scan, next, verified, locked) =>
        && Ascending(scan) && next <= |scan| && ServicePasses(live, seen, intent)
        && (forall u :: u in verified ==>
              && Key(tenant, u) in s.members && s.members[Key(tenant, u)] == Owner
              && Key(tenant, u) in s.rowLocks && s.rowLocks[Key(tenant, u)] == tx)
        && (locked.Some? ==>
              && Key(tenant, target) in s.members && s.members[Key(tenant, target)] == locked.value
              && Key(tenant, target) in s.rowLocks && s.rowLocks[Key(tenant, target)] == tx)
      case Accepting(id, _, used, cancelled, _) =>
        && id in s.inviteLocks && s.inviteLocks[id] == tx
        && id in s.invites && used == s.invites[id].acceptedBy.Some? && cancelled == s.invites[id].revokedBy.Some?
      case Revoking(id, _, used, cancelled) =>
        && id in s.inviteLocks && s.inviteLocks[id] == tx
        && id in s.invites && used == s.invites[id].acceptedBy.Some? && cancelled == s.invites[id].revokedBy.Some?
  }

  ghost predicate InvitesOk(s: State) {
    && (forall i :: i in s.invites ==>
          && s.invites[i].role != Owner
          && !(s.invites[i].acceptedBy.Some? && s.invites[i].revokedBy.Some?))
    && (forall a :: 0 <= a < |s.joins| ==>
          s.joins[a].0 in s.invites && s.invites[s.joins[a].0].acceptedBy == Some(s.joins[a].1))
    && (forall a, b :: 0 <= a < b < |s.joins| ==> s.joins[a].0 != s.joins[b].0)
  }

  ghost predicate Inv(s: State) {
    && (forall tx :: TxOk(s, tx))
    && InvitesOk(s)
  }

  /** What `tx` has locked looks in `s'` as it did in `s`. */
  ghost predicate Undisturbed(s: State, s': State, tx: TxId) {
    && (forall k :: k in s.rowLocks && s.rowLocks[k] == tx ==>
          && k in s'.rowLocks && s'.rowLocks[k] == tx
          && (k in s.members ==> k in s'.members && s'.members[k] == s.members[k]))
    && (forall i :: i in s.inviteLocks && s.inviteLocks[i] == tx && i in s.invites ==>
          && i in s'.inviteLocks && s'.inviteLocks[i] == tx && i in s'.invites && s'.invites[i] == s.invites[i])
  }

  lemma UndisturbedIsOk(s: State, s': State, tx: TxId)
    requires TxOk(s, tx) && Undisturbed(s, s', tx)
    requires tx in s'.txs ==> tx in s.txs && s'.txs[tx] == s.txs[tx]
    ensures TxOk(s', tx)
  {
  }

  predicate Concerns(step: Step, tx: TxId) {
    match step
    case CreateInvite(_, _) => false
    case Provision(_, _) => false
    case _ => step.tx == tx
  }

  lemma EndDisturbsNoOther(s: State, s': State, tx: TxId, other: TxId)
    requires other != tx && Undisturbed(s, s', other)
    ensures Undisturbed(s, Ended(s', tx), other)
  {
  }

  /** A commit writes only rows and invites its transaction holds the locks of. */
  lemma CommitDisturbsNoOther(s: State, tx: TxId, other: TxId)
    requires Inv(s) && Enabled(s, Commit(tx)) && other != tx
    ensures Undisturbed(s, Apply(s, Commit(tx)), other)
  {
    assert TxOk(s, tx) && TxOk(s, other);
    match s.txs[tx]
    case Change(_, _, _, _, _, _, _, _, _) =>
      var m := if LastOwner(s.txs[tx]) then s.members else Written(s.members, Key(s.txs[tx].tenant, s.txs[tx].target), s.txs[tx].intent);
      EndDisturbsNoOther(s, s.(members := m), tx, other);
      assert s.(members := s.members) == s;
    case Accepting(_, _, _, _, _) =>
    case Revoking(_, _, _, _) =>
  }

  lemma StepDisturbsNoOther(s: State, step: Step, tx: TxId)
    requires Inv(s) && Enabled(s, step) && !Concerns(step, tx)
    ensures Undisturbed(s, Apply(s, step), tx)
  {
    match step
    case Commit(a) => CommitDisturbsNoOther(s, a, tx);
    case LockTarget(a) => EndDisturbsNoOther(s, s, a, tx);
    case Abort(a) => EndDisturbsNoOther(s, s, a, tx);
    case _ =>
  }

  lemma LockNextKeepsTx(s: State, tx: TxId)
    requires TxOk(s, tx) && Enabled(s, LockNext(tx))
    ensures TxOk(Apply(s, LockNext(tx)), tx)
  {
  }

  lemma LockTargetKeepsTx(s: State, tx: TxId)
    requires TxOk(s, tx) && Enabled(s, LockTarget(tx))
    ensures TxOk(Apply(s, LockTarget(tx)), tx)
  {
  }

  lemma BeginKeepsTx(s: State, step: Step, tx: TxId)
    requires Enabled(s, step) && Concerns(step, tx) && (step.Begin? || step.BeginAccept? || step.BeginRevoke?)
    ensures TxOk(Apply(s, step), tx)
  {
  }

  lemma OwnStepKeepsTx(s: State, step: Step, tx: TxId)
    requires TxOk(s, tx) && Enabled(s, step) && Concerns(step, tx)
    ensures TxOk(Apply(s, step), tx)
  {
    match step
    case LockNext(_) => LockNextKeepsTx(s, tx);
    case LockTarget(_) => LockTargetKeepsTx(s, tx);
    case Commit(_) => assert tx !in Apply(s, step).txs;
    case Abort(_) => assert tx !in Apply(s, step).txs;
    case _ => BeginKeepsTx(s, step, tx);
  }

  lemma StepKeepsTx(s: State, step: Step, tx: TxId)
    requires Inv(s) && Enabled(s, step)
    ensures TxOk(Apply(s, step), tx)
  {
    assert TxOk(s, tx);
    if Concerns(step, tx) {
      OwnStepKeepsTx(s, step, tx);
    } else {
      StepDisturbsNoOther(s, step, tx);
      UndisturbedIsOk(s, Apply(s, step), tx);
    }
  }

  lemma ChangeKeepsInvites(s: State, tx: TxId)
    requires InvitesOk(s) && Enabled(s, Commit(tx)) && s.txs[tx].Change?
    ensures InvitesOk(Apply(s, Commit(tx)))
  {
  }

  lemma AcceptKeepsInvites(s: State, tx: TxId)
    requires InvitesOk(s) && TxOk(s, tx) && Enabled(s, Commit(tx)) && s.txs[tx].Accepting?
    ensures InvitesOk(Apply(s, Commit(tx)))
  {
    var t, s' := s.txs[tx], Apply(s, Commit(tx));
    if s'.joins != s.joins {
      forall a | 0 <= a < |s.joins| ensures s.joins[a].0 != t.invite {
      }
    }
  }

  lemma RevokeKeepsInvites(s: State, tx: TxId)
    requires InvitesOk(s) && TxOk(s, tx) && Enabled(s, Commit(tx)) && s.txs[tx].Revoking?
    ensures InvitesOk(Apply(s, Commit(tx)))
  {
  }

  lemma StepKeepsInvites(s: State, step: Step)
    requires Inv(s) && Enabled(s, step)
    ensures InvitesOk(Apply(s, step))
  {
    if step.Commit? {
      assert TxOk(s, step.tx);
      match s.txs[step.tx]
      case Change(_, _, _, _, _, _, _, _, _) => ChangeKeepsInvites(s, step.tx);
      case Accepting(_, _, _, _, _) => AcceptKeepsInvites(s, step.tx);
      case Revoking(_, _, _, _) => RevokeKeepsInvites(s, step.tx);
    }
  }

  lemma StepKeepsInv(s: State, step: Step)
    requires Inv(s) && Enabled(s, step)
    ensures Inv(Apply(s, step))
  {
    forall tx ensures TxOk(Apply(s, step), tx) {
      StepKeepsTx(s, step, tx);
    }
    StepKeepsInvites(s, step);
  }

  lemma {:induction false} Reachable(s: State, steps: seq<Step>)
    requires Quiet(s) && Exec(s, steps).Some?
    ensures Inv(Exec(s, steps).value)
  {
    if steps != [] {
      Reachable(s, steps[..|steps| - 1]);
      StepKeepsInv(Exec(s, steps[..|steps| - 1]).value, steps[|steps| - 1]);
    }
  }

  // ---------------------------------------------------------------- the last owner

  ghost predicate Owned(m: Members, tenant: TenantId) {
    exists u :: IsOwner(m, tenant, u)
  }

  lemma CardinalityMonotone<T>(a: set<T>, b: set<T>)
    requires a <= b
    ensures |a| <= |b|
  {
    assert b == a + (b - a);
  }

  lemma AnotherVerified(verified: set<UserId>, target: UserId) returns (u: UserId)
    requires |verified| >= 2
    ensures u in verified && u != target
  {
    if verified <= {target} {
      CardinalityMonotone(verified, {target});
    }
    u :| u in verified && u != target;
  }

  lemma StepKeepsOwned(s: State, step: Step, tenant: TenantId)
    requires Inv(s) && Enabled(s, step) && Owned(s.members, tenant)
    ensures Owned(Apply(s, step).members, tenant)
  {
    var s' := Apply(s, step);
    var u :| IsOwner(s.members, tenant, u);
    if step.Commit? && s.txs[step.tx].Change? && !LastOwner(s.txs[step.tx]) {
      var t := s.txs[step.tx];
      assert TxOk(s, step.tx);
      if t.tenant == tenant && t.target == u && t.intent != SetRole(Owner) {
        var v := AnotherVerified(t.verified, u);
        assert IsOwner(s'.members, tenant, v);
      } else {
        assert IsOwner(s'.members, tenant, u);
      }
    } else {
      assert IsOwner(s'.members, tenant, u);
    }
  }

  /** Last-owner safety: once a tenant has an owner it has one in every later committed state of every
      interleaving, whatever snapshots the owner scans came from. */
  lemma {:induction false} AlwaysOwned(s: State, steps: seq<Step>, n: nat, tenant: TenantId)
    requires Quiet(s) && Exec(s, steps).Some? && n <= |steps|
    requires Exec(s, steps[..n]).Some? && Owned(Exec(s, steps[..n]).value.members, tenant)
    ensures Owned(Exec(s, steps).value.members, tenant)
  {
    if n == |steps| {
      assert steps[..n] == steps;
    } else {
      var before := steps[..|steps| - 1];
      assert before[..n] == steps[..n];
      AlwaysOwned(s, before, n, tenant);
      Reachable(s, before);
      StepKeepsOwned(Exec(s, before).value, steps[|steps| - 1], tenant);
    }
  }

  /** A provisioned tenant is owned from its first moment, hence always. */
  lemma ProvisionedIsOwned(s: State, step: Step)
    requires Enabled(s, step) && step.Provision?
    ensures Owned(Apply(s, step).members, step.newTenant)
  {
    assert IsOwner(Apply(s, step).members, step.newTenant, step.user);
  }

  // ---------------------------------------------------------------- invites

  /** In every interleaving of accepts and revokes an invite is consumed at most once, and never both
      accepted and revoked. */
  lemma InviteEndsOneWay(s: State, steps: seq<Step>, i: InviteId)
    requires Quiet(s) && Exec(s, steps).Some? && i in Exec(s, steps).value.invites
    ensures var s' := Exec(s, steps).value;
            && !(s'.invites[i].acceptedBy.Some? && s'.invites[i].revokedBy.Some?)
            && (forall a, b :: 0 <= a < b < |s'.joins| ==> s'.joins[a].0 != s'.joins[b].0)
            && (forall a :: 0 <= a < |s'.joins| && s'.joins[a].0 == i ==> s'.invites[i].acceptedBy == Some(s'.joins[a].1))
  {
    Reachable(s, steps);
  }

  /** How an invite ended is final. */
  lemma InviteEndIsFinal(s: State, steps: seq<Step>, step: Step, i: InviteId)
    requires Quiet(s) && Exec(s, steps).Some? && Enabled(Exec(s, steps).value, step)
    requires i in Exec(s, steps).value.invites
    ensures var inv, s' := Exec(s, steps).value.invites[i], Apply(Exec(s, steps).value, step);
            && i in s'.invites
            && (inv.Ended() ==> s'.invites[i] == inv)
            && s'.invites[i].role == inv.role && s'.invites[i].tenant == inv.tenant
  {
    Reachable(s, steps);
    if step.Commit? {
      assert TxOk(Exec(s, steps).value, step.tx);
    }
  }

  // ---------------------------------------------------------------- who changes the owner set

  /** Every change commits as the one-call-at-a-time repository would have done it on the committed rows of
      that moment, whatever ran in between; where that one would refuse for the last owner, so does this. */
  lemma CommitsAreSequential(s: State, steps: seq<Step>, tx: TxId)
    requires Quiet(s) && Exec(s, steps).Some? && Enabled(Exec(s, steps).value, Commit(tx))
    requires Exec(s, steps).value.txs[tx].Change?
    ensures var s1 := Exec(s, steps).value;
            var t, s2 := s1.txs[tx], Apply(s1, Commit(tx));
            var sequential := Changed(s1.members, Key(t.tenant, t.target), t.intent);
            && (!LastOwner(t) ==> (s2.members, Ok) == sequential)
            && (LastOwner(t) ==> s2.members == s1.members)
            && (sequential.1 == Answer.LastOwner ==> LastOwner(t))
  {
    var s1 := Exec(s, steps).value;
    var t := s1.txs[tx];
    Reachable(s, steps);
    assert TxOk(s1, tx);
    CardinalityMonotone(t.verified, Owners(s1.members, t.tenant));
  }

  /** What a commit stores: the very role asked for, or no row, and nothing else; a refused one nothing. */
  lemma CommitStores(s: State, tx: TxId)
    requires Enabled(s, Commit(tx)) && s.txs[tx].Change?
    ensures var t, m := s.txs[tx], Apply(s, Commit(tx)).members;
            m == if t.locked == Some(Owner) && t.intent != SetRole(Owner) && |t.verified| <= 1 then s.members
                 else match t.intent
                      case SetRole(role) => s.members[Key(t.tenant, t.target) := role]
                      case Remove => s.members - {Key(t.tenant, t.target)}
    ensures Apply(s, Commit(tx)).invites == s.invites && Apply(s, Commit(tx)).tenants == s.tenants
  {
  }

  /** In every interleaving an acceptance stores the role its invite names, and it stores anything at all exactly
      when the invite is still open, was unexpired, entitled and rightly addressed when its row was locked, and
      the user is not a member by now. */
  lemma AcceptStores(s: State, steps: seq<Step>, tx: TxId)
    requires Quiet(s) && Exec(s, steps).Some? && Enabled(Exec(s, steps).value, Commit(tx))
    requires Exec(s, steps).value.txs[tx].Accepting?
    ensures var s1 := Exec(s, steps).value;
            var t, s2 := s1.txs[tx], Apply(s1, Commit(tx));
            && t.invite in s1.invites
            && var i := s1.invites[t.invite];
               if i.acceptedBy.None? && i.revokedBy.None? && t.valid && Key(i.tenant, t.user) !in s1.members
               then && s2.members == s1.members[Key(i.tenant, t.user) := i.role]
                    && s2.invites == s1.invites[t.invite := i.(acceptedBy := Some(t.user))]
               else s2.members == s1.members && s2.invites == s1.invites
  {
    Reachable(s, steps);
    assert TxOk(Exec(s, steps).value, tx);
  }

  /** When an acceptance locks its invite it notes whether the invite may be taken up. */
  lemma AcceptLooks(s: State, step: Step)
    requires Enabled(s, step) && step.BeginAccept?
    ensures var t, i := Apply(s, step).txs[step.tx], s.invites[step.inviteId];
            && t == Accepting(step.inviteId, step.user, i.acceptedBy.Some?, i.revokedBy.Some?, t.valid)
            && (t.valid <==> step.now <= i.expiresAt && i.email == step.email
                             && Key(i.tenant, i.invitedBy) in s.members && s.members[Key(i.tenant, i.invitedBy)] in {Owner, Admin})
  {
  }

  /** Exactly when the last-owner refusal is spurious, given although the one-call-at-a-time repository would go
      through: the target is an owner losing that role, another owner exists, and yet at most one was counted.
      Either the target was not counted itself and at most one other was, or it was and none of the others. */
  lemma SpuriousRefusalIff(s: State, steps: seq<Step>, tx: TxId)
    requires Quiet(s) && Exec(s, steps).Some? && Enabled(Exec(s, steps).value, Commit(tx))
    requires Exec(s, steps).value.txs[tx].Change?
    ensures var s1 := Exec(s, steps).value;
            var t := s1.txs[tx];
            var others := Owners(s1.members, t.tenant) - {t.target};
            && (LastOwner(t) && Changed(s1.members, Key(t.tenant, t.target), t.intent).1 == Ok <==>
                  t.locked == Some(Owner) && t.intent != SetRole(Owner) && others != {}
                  && ((t.target !in t.verified && |others * t.verified| <= 1)
                      || (t.target in t.verified && others * t.verified == {})))
  {
    var s1 := Exec(s, steps).value;
    var t := s1.txs[tx];
    Reachable(s, steps);
    assert TxOk(s1, tx);
    LastOwnerIff(s1.members, Key(t.tenant, t.target), t.intent);
    OthersCounted(t.verified, Owners(s1.members, t.tenant), t.target);
  }

  /** How many were counted, by whether the target was one of them. */
  lemma OthersCounted(verified: set<UserId>, owners: set<UserId>, target: UserId)
    requires verified <= owners
    ensures var others := owners - {target};
            |verified| <= 1 <==> if target in verified then others * verified == {} else |others * verified| <= 1
    ensures target in owners ==> (owners == {target} <==> owners - {target} == {})
  {
    var others := owners - {target};
    if target in verified {
      OnlyElement(verified, target);
      assert others * verified == verified - {target};
    } else {
      assert others * verified == verified;
    }
  }

  /** Exactly which commits an admin's request can change the owner set with: those whose target turned
      out, under its lock, to be an owner, although the service had seen another role. */
  lemma AdminChangesOwnersIff(s: State, steps: seq<Step>, tx: TxId)
    requires Quiet(s) && Exec(s, steps).Some? && Enabled(Exec(s, steps).value, Commit(tx))
    requires Exec(s, steps).value.txs[tx].Change? && Exec(s, steps).value.txs[tx].live == Admin
    ensures var s1 := Exec(s, steps).value;
            var t, s2 := s1.txs[tx], Apply(s1, Commit(tx));
            && (Owners(s2.members, t.tenant) != Owners(s1.members, t.tenant) <==>
                  t.locked == Some(Owner) && |t.verified| > 1)
            && t.seen != Some(Owner)
  {
    var s1 := Exec(s, steps).value;
    var t, s2 := s1.txs[tx], Apply(s1, Commit(tx));
    Reachable(s, steps);
    assert TxOk(s1, tx);
    var k := Key(t.tenant, t.target);
    OwnersWritten(s1.members, k, t.intent);
    if t.locked == Some(Owner) && |t.verified| > 1 {
      assert k.user in Owners(s1.members, t.tenant);
    }
  }
}

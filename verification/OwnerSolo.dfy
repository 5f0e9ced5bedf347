/** Role changes and removals that run while nobody else holds a row: what one does from beginning to
    commit, and how a tenant can be emptied of all but some members. */
module OwnerSolo {
  import opened Base
  import opened TenantDomain
  import opened Membership
  import opened MembershipProtocol
  import opened OwnerLocks

  // ---------------------------------------------------------------- telling the truth

  /** The caller's role, the target's role and the owner list are those of the moment of the read. */
  ghost predicate HonestBegin(s: State, step: Step) {
    step.Begin? ==>
      && Key(step.tenant, step.actor) in s.members && s.members[Key(step.tenant, step.actor)] == step.live
      && (step.seen.Some? ==>
            Key(step.tenant, step.target) in s.members && s.members[Key(step.tenant, step.target)] == step.seen.value)
      && (forall u :: u in step.scan <==> IsOwner(s.members, step.tenant, u))
  }

  ghost predicate Honest(s: State, steps: seq<Step>)
    requires Exec(s, steps).Some?
  {
    if steps == [] then true
    else
      var before := steps[..|steps| - 1];
      Exec(s, before).Some? && Honest(s, before) && HonestBegin(Exec(s, before).value, steps[|steps| - 1])
  }

  /** From s to s' by locking steps; all of them honest when `honest` says so. */
  ghost predicate Leads(s: State, steps: seq<Step>, s': State, honest: bool) {
    LockSteps(steps) && Exec(s, steps) == Some(s') && (honest ==> Honest(s, steps))
  }

  lemma LeadsStep(s: State, step: Step, honest: bool)
    requires LockStep(step) && Enabled(s, step) && (honest ==> HonestBegin(s, step))
    ensures Leads(s, [step], Apply(s, step), honest)
  {
    assert [step][..0] == [];
    assert Exec(s, []) == Some(s);
  }

  lemma {:induction false} LeadsJoin(s: State, a: seq<Step>, s1: State, b: seq<Step>, s2: State, honest: bool)
    requires Leads(s, a, s1, honest) && Leads(s1, b, s2, honest)
    ensures Leads(s, a + b, s2, honest)
    decreases |b|
  {
    ExecJoin(s, a, b);
    if b == [] {
      assert a + b == a;
    } else {
      var before, last := b[..|b| - 1], b[|b| - 1];
      LeadsJoin(s, a, s1, before, Exec(s1, before).value, honest);
      assert (a + b)[..|a + b| - 1] == a + before && (a + b)[|a + b| - 1] == last;
    }
  }

  // ---------------------------------------------------------------- scanning

  predicate Within(list: seq<UserId>, n: nat, u: UserId) {
    exists j :: 0 <= j < n && j < |list| && list[j] == u
  }

  /** Same call, possibly further on. */
  predicate SameCall(t: Tx, t': Tx) {
    && t.Change? && t'.Change?
    && t'.tenant == t.tenant && t'.target == t.target && t'.scan == t.scan && t'.intent == t.intent
  }

  /** Nothing but scanning happened: rows as they were, locks only added, calls the same. */
  ghost predicate Scanned(s: State, s': State) {
    && s'.members == s.members && s'.txs.Keys == s.txs.Keys
    && (forall x :: IsChange(s, x) ==> IsChange(s', x) && SameCall(s.txs[x], s'.txs[x]))
    && (forall k :: k in s.rowLocks ==> k in s'.rowLocks && s'.rowLocks[k] == s.rowLocks[k])
  }

  predicate Counted(m: Members, t: Tx, from: nat, n: nat, u: UserId)
    requires t.Change? && n <= |t.scan|
  {
    IsOwner(m, t.tenant, u) && exists j :: from <= j < n && t.scan[j] == u
  }

  /** tx alone moved, to its n-th row; it holds the rows it passed that exist and counted the owners among them. */
  ghost predicate MovedTo(s: State, s': State, tx: TxId, n: nat)
    requires IsChange(s, tx) && n <= |s.txs[tx].scan|
  {
    var t := s.txs[tx];
    && Scanned(s, s')
    && (forall x :: x != tx && x in s.txs ==> s'.txs[x] == s.txs[x])
    && s'.txs[tx].next == n && s'.txs[tx].locked == t.locked
    && (forall k :: k in s'.rowLocks && k !in s.rowLocks ==>
          s'.rowLocks[k] == tx && k in s.members && k.tenant == t.tenant && Within(t.scan, n, k.user))
    && (forall j :: t.next <= j < n && Key(t.tenant, t.scan[j]) in s.members ==> Holds(s', tx, Key(t.tenant, t.scan[j])))
    && (forall u :: u in s'.txs[tx].verified <==> u in t.verified || Counted(s.members, t, t.next, n, u))
  }

  /** The rows up to the n-th are missing, or free for tx to lock. */
  ghost predicate CanScanTo(s: State, tx: TxId, n: nat) {
    && IsChange(s, tx) && s.txs[tx].next <= n <= |s.txs[tx].scan|
    && forall j :: s.txs[tx].next <= j < n && Key(s.txs[tx].tenant, s.txs[tx].scan[j]) in s.members ==>
         Free(s, Key(s.txs[tx].tenant, s.txs[tx].scan[j]), tx)
  }

  lemma CountOne(s: State, tx: TxId)
    requires IsChange(s, tx) && CanScanTo(s, tx, s.txs[tx].next + 1)
    ensures var t, t' := s.txs[tx], Apply(s, LockNext(tx)).txs[tx];
            forall u :: u in t'.verified <==> u in t.verified || Counted(s.members, t, t.next, t.next + 1, u)
  {
    var t := s.txs[tx];
    forall u ensures Counted(s.members, t, t.next, t.next + 1, u) <==> u == t.scan[t.next] && IsOwner(s.members, t.tenant, u) {
    }
  }

  lemma StillCanScan(s: State, tx: TxId, n: nat)
    requires CanScanTo(s, tx, n) && s.txs[tx].next < n
    ensures Enabled(s, LockNext(tx)) && CanScanTo(Apply(s, LockNext(tx)), tx, n)
  {
  }

  lemma ScanOne(s: State, tx: TxId, n: nat)
    requires CanScanTo(s, tx, n) && s.txs[tx].next < n
    ensures Enabled(s, LockNext(tx))
    ensures var s' := Apply(s, LockNext(tx));
            CanScanTo(s', tx, n) && MovedTo(s, s', tx, s.txs[tx].next + 1)
  {
    CountOne(s, tx);
    StillCanScan(s, tx, n);
    assert Within(s.txs[tx].scan, s.txs[tx].next + 1, s.txs[tx].scan[s.txs[tx].next]);
  }

  lemma CountedSplit(m: Members, t: Tx, from: nat, mid: nat, n: nat, u: UserId)
    requires t.Change? && from <= mid <= n <= |t.scan|
    ensures Counted(m, t, from, n, u) <==> Counted(m, t, from, mid, u) || Counted(m, t, mid, n, u)
  {
  }

  lemma MovedLocks(s: State, s1: State, s': State, tx: TxId, n: nat)
    requires IsChange(s, tx) && s.txs[tx].next < n <= |s.txs[tx].scan|
    requires MovedTo(s, s1, tx, s.txs[tx].next + 1) && MovedTo(s1, s', tx, n)
    ensures forall k :: k in s'.rowLocks && k !in s.rowLocks ==>
              && s'.rowLocks[k] == tx && k in s.members && k.tenant == s.txs[tx].tenant
              && Within(s.txs[tx].scan, n, k.user)
  {
    forall k | k in s'.rowLocks && k !in s.rowLocks
      ensures && s'.rowLocks[k] == tx && k in s.members && k.tenant == s.txs[tx].tenant
              && Within(s.txs[tx].scan, n, k.user)
    {
      if k in s1.rowLocks {
        var j :| 0 <= j < s.txs[tx].next + 1 && j < |s.txs[tx].scan| && s.txs[tx].scan[j] == k.user;
        assert j < n;
      }
    }
  }

  lemma MovedOn(s: State, s1: State, s': State, tx: TxId, n: nat)
    requires IsChange(s, tx) && s.txs[tx].next < n <= |s.txs[tx].scan|
    requires MovedTo(s, s1, tx, s.txs[tx].next + 1) && MovedTo(s1, s', tx, n)
    ensures MovedTo(s, s', tx, n)
  {
    var t := s.txs[tx];
    MovedLocks(s, s1, s', tx, n);
    forall u ensures u in s'.txs[tx].verified <==> u in t.verified || Counted(s.members, t, t.next, n, u) {
      CountedSplit(s.members, t, t.next, t.next + 1, n, u);
      assert Counted(s1.members, s1.txs[tx], t.next + 1, n, u) <==> Counted(s.members, t, t.next + 1, n, u);
    }
  }

  lemma {:induction false} ScanTo(s: State, tx: TxId, n: nat, honest: bool) returns (steps: seq<Step>, s': State)
    requires CanScanTo(s, tx, n)
    ensures Leads(s, steps, s', honest) && MovedTo(s, s', tx, n)
    decreases n - s.txs[tx].next
  {
    if s.txs[tx].next == n {
      steps, s' := [], s;
      assert Exec(s, []) == Some(s);
    } else {
      var s1 := Apply(s, LockNext(tx));
      ScanOne(s, tx, n);
      LeadsStep(s, LockNext(tx), honest);
      var rest;
      rest, s' := ScanTo(s1, tx, n, honest);
      LeadsJoin(s, [LockNext(tx)], s1, rest, s', honest);
      steps := [LockNext(tx)] + rest;
      MovedOn(s, s1, s', tx, n);
    }
  }

  // ---------------------------------------------------------------- one call alone

  lemma {:induction false} Largest(s: set<nat>) returns (x: nat)
    requires s != {}
    ensures x in s && forall y :: y in s ==> y <= x
    decreases |s|
  {
    x :| x in s;
    if s != {x} {
      assert |s - {x}| < |s|;
      var y := Largest(s - {x});
      assert forall z :: z in s ==> z == x || z in s - {x};
      x := if x < y then y else x;
    }
  }

  lemma Unused(s: set<nat>) returns (x: nat)
    ensures x !in s
  {
    x := 0;
    if s != {} {
      var y := Largest(s);
      x := y + 1;
    }
  }

  /** The result of ORDER BY user_id. */
  lemma {:induction false} InOrder(s: set<nat>) returns (ids: seq<nat>)
    ensures Ascending(ids) && forall u :: u in ids <==> u in s
    decreases |s|
  {
    ids := [];
    if s != {} {
      var x := Largest(s);
      assert |s - {x}| < |s|;
      var before := InOrder(s - {x});
      assert forall i :: 0 <= i < |before| ==> before[i] in before;
      ids := before + [x];
      assert forall u :: u in ids <==> u in before || u == x;
    }
  }

  /** Nothing but the members changed: no lock is left and the other calls are where they were. */
  predicate Settled(s: State, s': State, m: Members) {
    s'.members == m && s'.txs == s.txs && s'.rowLocks == map[]
  }

  /** Locking the target and committing, when nobody else holds a row. */
  lemma FinishAlone(s: State, tx: TxId, honest: bool) returns (steps: seq<Step>, s': State)
    requires IsChange(s, tx) && s.txs[tx].next == |s.txs[tx].scan| && s.txs[tx].locked.None?
    requires forall k :: k in s.rowLocks ==> s.rowLocks[k] == tx
    requires s.txs[tx].verified == Owners(s.members, s.txs[tx].tenant)
    requires Changed(s.members, Key(s.txs[tx].tenant, s.txs[tx].target), s.txs[tx].intent).1 == Ok
    ensures Leads(s, steps, s', honest)
    ensures s'.members == Changed(s.members, Key(s.txs[tx].tenant, s.txs[tx].target), s.txs[tx].intent).0
    ensures s'.txs == s.txs - {tx} && s'.rowLocks == map[]
  {
    LeadsStep(s, LockTarget(tx), honest);
    var s1 := Apply(s, LockTarget(tx));
    LeadsStep(s1, Commit(tx), honest);
    s' := Apply(s1, Commit(tx));
    steps := [LockTarget(tx)] + [Commit(tx)];
    LeadsJoin(s, [LockTarget(tx)], s1, [Commit(tx)], s', honest);
    assert s'.txs == s.txs - {tx};
  }

  /** Everything after the beginning of a call that read the owners. */
  lemma RunBegun(s: State, tx: TxId, honest: bool) returns (steps: seq<Step>, s': State)
    requires IsChange(s, tx) && s.txs[tx].next == 0 && s.txs[tx].verified == {} && s.txs[tx].locked.None?
    requires s.rowLocks == map[] && forall u :: u in s.txs[tx].scan <==> IsOwner(s.members, s.txs[tx].tenant, u)
    requires Changed(s.members, Key(s.txs[tx].tenant, s.txs[tx].target), s.txs[tx].intent).1 == Ok
    ensures Leads(s, steps, s', honest)
    ensures s'.members == Changed(s.members, Key(s.txs[tx].tenant, s.txs[tx].target), s.txs[tx].intent).0
    ensures s'.txs == s.txs - {tx} && s'.rowLocks == map[]
  {
    var scanning, s1 := ScanTo(s, tx, |s.txs[tx].scan|, honest);
    var last;
    last, s' := FinishAlone(s1, tx, honest);
    LeadsJoin(s, scanning, s1, last, s', honest);
    steps := scanning + last;
    assert s'.txs == s.txs - {tx};
  }

  /** A whole call, begun with the truth by an owner, does what the one-call-at-a-time repository does. */
  lemma RunAlone(s: State, k: Key, intent: Intent, actor: UserId, honest: bool) returns (steps: seq<Step>, s': State)
    requires s.rowLocks == map[] && actor != k.user && Changed(s.members, k, intent).1 == Ok
    requires honest ==> IsOwner(s.members, k.tenant, actor)
    ensures Leads(s, steps, s', honest) && Settled(s, s', Changed(s.members, k, intent).0)
  {
    var tx := Unused(s.txs.Keys);
    var scan := InOrder(Owners(s.members, k.tenant));
    var begin := Begin(tx, k.tenant, actor, k.user, intent, Owner, None, scan);
    LeadsStep(s, begin, honest);
    var s1 := Apply(s, begin);
    var rest;
    rest, s' := RunBegun(s1, tx, honest);
    LeadsJoin(s, [begin], s1, rest, s', honest);
    steps := [begin] + rest;
    assert s'.txs == s.txs;
  }

  // ---------------------------------------------------------------- clearing the ground

  function Rows(m: Members, tenant: TenantId): (rows: set<UserId>)
    ensures forall u :: u in rows <==> Key(tenant, u) in m
  {
    var rows := set k | k in m && k.tenant == tenant :: k.user;
    assert forall u :: Key(tenant, u) in m ==> Key(tenant, u).user in rows;
    rows
  }

  lemma RemoveOne(s: State, tenant: TenantId, r: UserId, w: UserId) returns (steps: seq<Step>, s': State)
    requires s.rowLocks == map[] && r in Rows(s.members, tenant) && r != w && IsOwner(s.members, tenant, w)
    ensures Leads(s, steps, s', true) && Settled(s, s', s'.members)
    ensures Rows(s'.members, tenant) == Rows(s.members, tenant) - {r} && IsOwner(s'.members, tenant, w)
  {
    LastOwnerIff(s.members, Key(tenant, r), Remove);
    assert w in Owners(s.members, tenant);
    steps, s' := RunAlone(s, Key(tenant, r), Remove, w, true);
  }

  lemma FewerOthers(rows: set<UserId>, keep: set<UserId>, r: UserId)
    requires r in rows - keep
    ensures |(rows - {r}) - keep| < |rows - keep| && (rows - {r}) * keep == rows * keep
  {
    assert (rows - {r}) - keep == (rows - keep) - {r};
  }

  /** Owner w can remove every member but those to keep, one after the other. */
  lemma {:induction false} RemoveAllBut(s: State, tenant: TenantId, keep: set<UserId>, w: UserId)
    returns (steps: seq<Step>, s': State)
    requires s.rowLocks == map[] && w in keep && IsOwner(s.members, tenant, w)
    ensures Leads(s, steps, s', true) && Settled(s, s', s'.members)
    ensures Rows(s'.members, tenant) == Rows(s.members, tenant) * keep
    decreases |Rows(s.members, tenant) - keep|
  {
    if Rows(s.members, tenant) - keep == {} {
      steps, s' := [], s;
      assert Exec(s, []) == Some(s);
      assert Rows(s.members, tenant) == Rows(s.members, tenant) * keep;
    } else {
      var r :| r in Rows(s.members, tenant) - keep;
      var first, s1 := RemoveOne(s, tenant, r, w);
      FewerOthers(Rows(s.members, tenant), keep, r);
      var rest;
      rest, s' := RemoveAllBut(s1, tenant, keep, w);
      LeadsJoin(s, first, s1, rest, s', true);
      steps := first + rest;
    }
  }

  /** Every transaction but those to keep can abort. */
  lemma {:induction false} AbortAllBut(s: State, keep: set<TxId>) returns (steps: seq<Step>, s': State)
    ensures Leads(s, steps, s', true) && s'.members == s.members && s'.txs.Keys == s.txs.Keys * keep
    ensures forall x :: x in s'.txs ==> s'.txs[x] == s.txs[x]
    decreases |s.txs.Keys - keep|
  {
    var others := s.txs.Keys - keep;
    if others == {} {
      steps, s' := [], s;
      assert Exec(s, []) == Some(s);
    } else {
      var x :| x in others;
      LeadsStep(s, Abort(x), true);
      var s1 := Apply(s, Abort(x));
      assert s1.txs.Keys - keep == others - {x};
      assert |others - {x}| < |others|;
      var rest;
      rest, s' := AbortAllBut(s1, keep);
      LeadsJoin(s, [Abort(x)], s1, rest, s', true);
      steps := [Abort(x)] + rest;
      assert s1.txs.Keys * keep == s.txs.Keys * keep;
    }
  }
}

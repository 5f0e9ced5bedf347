/** Exactly which concurrent role changes and removals can deadlock, judged on what the calls read: the
    rows each will lock, its owner scan in user order and then its target. */
module OwnerDeadlock {
  import opened Base
  import opened TenantDomain
  import opened Membership
  import opened MembershipProtocol
  import opened OwnerLocks
  import opened OwnerSolo

  /** The rows a call locks, in order, as far as they still exist. */
  function LockList(t: Tx): seq<UserId>
    requires t.Change?
  {
    t.scan + [t.target]
  }

  function Next(m: nat, n: nat): (k: nat)
    requires m < n
    ensures k < n && (n > 1 ==> k != m)
  {
    if m + 1 == n then 0 else m + 1
  }

  /** Positions in the lists at which each call wants an existing row that, of all these calls, exactly the
      next one has among the rows before its own position. */
  ghost predicate Entangled(lists: seq<seq<UserId>>, pos: seq<nat>, rows: set<UserId>) {
    && |pos| == |lists| >= 2
    && (forall m :: 0 <= m < |lists| ==> pos[m] < |lists[m]| && lists[m][pos[m]] in rows)
    && (forall m, k :: 0 <= m < |lists| && 0 <= k < |lists| ==>
          (Within(lists[k], pos[k], lists[m][pos[m]]) <==> k == Next(m, |lists|)))
  }

  /** Everyone in the circle wants something the next one has and it has not itself. */
  lemma WantsFromNext(lists: seq<seq<UserId>>, pos: seq<nat>, rows: set<UserId>, m: nat)
    requires Entangled(lists, pos, rows) && m < |lists|
    ensures pos[m] < |lists[m]| && pos[Next(m, |lists|)] > 0
    ensures Within(lists[Next(m, |lists|)], pos[Next(m, |lists|)], lists[m][pos[m]])
    ensures !Within(lists[m], pos[m], lists[m][pos[m]])
  {
  }

  predicate Live(s: State, cyc: seq<TxId>) {
    forall m :: 0 <= m < |cyc| ==> cyc[m] in s.txs && s.txs[cyc[m]].Change?
  }

  /** The live transactions `cyc`, one tenant's. */
  ghost predicate Calls(s: State, cyc: seq<TxId>, tenant: TenantId) {
    && |cyc| >= 2 && Distinct(cyc) && Live(s, cyc)
    && forall m :: 0 <= m < |cyc| ==> s.txs[cyc[m]].tenant == tenant
  }

  function Lists(s: State, cyc: seq<TxId>): (lists: seq<seq<UserId>>)
    requires Live(s, cyc)
    ensures |lists| == |cyc| && forall m :: 0 <= m < |cyc| ==> lists[m] == LockList(s.txs[cyc[m]])
  {
    seq(|cyc|, m requires 0 <= m < |cyc| => LockList(s.txs[cyc[m]]))
  }

  ghost predicate WaitCycle(s: State, cyc: seq<TxId>) {
    |cyc| >= 2 && forall m :: 0 <= m < |cyc| ==> WaitsFor(s, cyc[m], cyc[Next(m, |cyc|)])
  }

  // ---------------------------------------------------------------- a cycle of waits is entangled

  /** Where a call that still has a row to lock has got to in its list. */
  function Pos(t: Tx): nat
    requires t.Change?
  {
    if t.next < |t.scan| then t.next else |t.scan|
  }

  lemma PassedIsHeld(s: State, tx: TxId, u: UserId)
    requires LockInv(s) && IsChange(s, tx) && Wanted(s.txs[tx]).Some?
    requires Within(LockList(s.txs[tx]), Pos(s.txs[tx]), u) && Key(s.txs[tx].tenant, u) in s.members
    ensures Holds(s, tx, Key(s.txs[tx].tenant, u))
  {
    assert PassedOk(s, tx) && TxOk(s, tx);
    var t := s.txs[tx];
    var j :| 0 <= j < Pos(t) && j < |LockList(t)| && LockList(t)[j] == u;
    assert LockList(t)[j] == t.scan[j];
  }

  /** The row a call waits for exists and is among those its holder has passed. */
  lemma HolderPassed(s: State, a: TxId, b: TxId)
    requires LockInv(s) && WaitsFor(s, a, b) && IsChange(s, b) && Wanted(s.txs[b]).Some?
    ensures s.txs[b].tenant == s.txs[a].tenant
    ensures Pos(s.txs[a]) < |LockList(s.txs[a])|
    ensures Wanted(s.txs[a]) == Some(Key(s.txs[a].tenant, LockList(s.txs[a])[Pos(s.txs[a])]))
    ensures Within(LockList(s.txs[b]), Pos(s.txs[b]), LockList(s.txs[a])[Pos(s.txs[a])])
  {
    var x, y := s.txs[a], s.txs[b];
    var k := Wanted(x).value;
    assert HeldOk(s, k) && TxOk(s, a) && TxOk(s, b) && PassedOk(s, b) && PassedOk(s, a);
    assert LockList(x)[Pos(x)] == k.user;
    var j :| 0 <= j < y.next && j < |y.scan| && y.scan[j] == k.user;
    assert LockList(y)[j] == k.user;
  }

  function Positions(s: State, cyc: seq<TxId>): (pos: seq<nat>)
    requires Live(s, cyc)
    ensures |pos| == |cyc| && forall m :: 0 <= m < |cyc| ==> pos[m] == Pos(s.txs[cyc[m]])
  {
    seq(|cyc|, m requires 0 <= m < |cyc| => Pos(s.txs[cyc[m]]))
  }

  /** Of the circle's calls exactly the holder of the row has passed it. */
  lemma OnlyHolderPassed(s: State, cyc: seq<TxId>, tenant: TenantId, m: nat, k: nat)
    requires LockInv(s) && Calls(s, cyc, tenant) && WaitCycle(s, cyc) && m < |cyc| && k < |cyc|
    ensures Pos(s.txs[cyc[m]]) < |LockList(s.txs[cyc[m]])|
    ensures var u := LockList(s.txs[cyc[m]])[Pos(s.txs[cyc[m]])];
            && u in Rows(s.members, tenant)
            && (Within(LockList(s.txs[cyc[k]]), Pos(s.txs[cyc[k]]), u) <==> k == Next(m, |cyc|))
  {
    var n := Next(m, |cyc|);
    assert WaitsFor(s, cyc[m], cyc[n]);
    assert WaitsFor(s, cyc[n], cyc[Next(n, |cyc|)]) && WaitsFor(s, cyc[k], cyc[Next(k, |cyc|)]);
    HolderPassed(s, cyc[m], cyc[n]);
    var u := LockList(s.txs[cyc[m]])[Pos(s.txs[cyc[m]])];
    if Within(LockList(s.txs[cyc[k]]), Pos(s.txs[cyc[k]]), u) {
      PassedIsHeld(s, cyc[k], u);
      assert cyc[k] == cyc[n];
    }
  }

  lemma CycleIsEntangled(s: State, cyc: seq<TxId>, tenant: TenantId)
    requires LockInv(s) && Calls(s, cyc, tenant) && WaitCycle(s, cyc)
    ensures Entangled(Lists(s, cyc), Positions(s, cyc), Rows(s.members, tenant))
  {
    forall m, k | 0 <= m < |cyc| && 0 <= k < |cyc|
      ensures Positions(s, cyc)[m] < |Lists(s, cyc)[m]|
      ensures Lists(s, cyc)[m][Positions(s, cyc)[m]] in Rows(s.members, tenant)
      ensures Within(Lists(s, cyc)[k], Positions(s, cyc)[k], Lists(s, cyc)[m][Positions(s, cyc)[m]])
              <==> k == Next(m, |cyc|)
    {
      OnlyHolderPassed(s, cyc, tenant, m, k);
    }
  }

  // ---------------------------------------------------------------- entangled calls can be brought to it

  /** Calls that have not locked anything yet. */
  ghost predicate Fresh(s: State, cyc: seq<TxId>, tenant: TenantId) {
    && Calls(s, cyc, tenant)
    && forall m :: 0 <= m < |cyc| ==> s.txs[cyc[m]].next == 0 && s.txs[cyc[m]].locked.None?
  }

  function Wants(lists: seq<seq<UserId>>, pos: seq<nat>): set<UserId>
    requires |pos| == |lists| && forall m :: 0 <= m < |lists| ==> pos[m] < |lists[m]|
  {
    set m | 0 <= m < |lists| :: lists[m][pos[m]]
  }

  function TxSet(cyc: seq<TxId>): set<TxId> { set x | x in cyc }

  /** The ground is clear: only the circle's calls are live, nothing is locked, and of the tenant's rows only
      the wanted ones are left. */
  ghost predicate Cleared(s0: State, s: State, cyc: seq<TxId>, pos: seq<nat>, tenant: TenantId)
    requires Calls(s0, cyc, tenant) && Entangled(Lists(s0, cyc), pos, Rows(s0.members, tenant))
  {
    && s.rowLocks == map[] && s.txs.Keys == TxSet(cyc)
    && (forall m :: 0 <= m < |cyc| ==> cyc[m] in s.txs && s.txs[cyc[m]] == s0.txs[cyc[m]])
    && Rows(s.members, tenant) == Wants(Lists(s0, cyc), pos)
  }

  lemma NothingLocked(s: State, cyc: seq<TxId>, tenant: TenantId)
    requires LockInv(s) && Fresh(s, cyc, tenant) && s.txs.Keys == TxSet(cyc)
    ensures s.rowLocks == map[]
  {
    forall x | x in s.txs ensures s.txs[x].Change? && s.txs[x].next == 0 && s.txs[x].locked.None? {
      assert x in TxSet(cyc);
      var m :| 0 <= m < |cyc| && cyc[m] == x;
    }
    forall k ensures k !in s.rowLocks {
      assert HeldOk(s, k);
    }
  }

  /** Some owner makes w an owner, unless it is one. */
  lemma Promoted(s: State, tenant: TenantId, w: UserId) returns (steps: seq<Step>, s': State)
    requires s.rowLocks == map[] && w in Rows(s.members, tenant)
    ensures Leads(s, steps, s', Owned(s.members, tenant)) && Settled(s, s', s'.members)
    ensures Rows(s'.members, tenant) == Rows(s.members, tenant) && IsOwner(s'.members, tenant, w)
  {
    var owned := Owned(s.members, tenant);
    if IsOwner(s.members, tenant, w) {
      steps, s' := [], s;
      assert Exec(s, []) == Some(s);
    } else {
      var actor: UserId := w + 1;
      if owned {
        actor :| IsOwner(s.members, tenant, actor);
      }
      steps, s' := RunAlone(s, Key(tenant, w), SetRole(Owner), actor, owned);
    }
  }

  lemma OthersGone(s0: State, cyc: seq<TxId>, tenant: TenantId) returns (steps: seq<Step>, s: State)
    requires LockInv(s0) && Fresh(s0, cyc, tenant)
    ensures Leads(s0, steps, s, true) && s.members == s0.members && s.rowLocks == map[] && s.txs.Keys == TxSet(cyc)
    ensures forall m :: 0 <= m < |cyc| ==> cyc[m] in s.txs && s.txs[cyc[m]] == s0.txs[cyc[m]]
  {
    steps, s := AbortAllBut(s0, TxSet(cyc));
    LockInvKept(s0, steps);
    forall m | 0 <= m < |cyc| ensures cyc[m] in s.txs {
      assert cyc[m] in s0.txs && cyc[m] in TxSet(cyc);
    }
    assert s.txs.Keys == TxSet(cyc);
    NothingLocked(s, cyc, tenant);
  }

  lemma Clear(s0: State, cyc: seq<TxId>, pos: seq<nat>, tenant: TenantId) returns (steps: seq<Step>, s: State)
    requires LockInv(s0) && Fresh(s0, cyc, tenant) && Entangled(Lists(s0, cyc), pos, Rows(s0.members, tenant))
    ensures Leads(s0, steps, s, Owned(s0.members, tenant)) && Cleared(s0, s, cyc, pos, tenant)
  {
    var lists, honest := Lists(s0, cyc), Owned(s0.members, tenant);
    var w := lists[0][pos[0]];
    var a, s1 := OthersGone(s0, cyc, tenant);
    var b, s2 := Promoted(s1, tenant, w);
    var c;
    c, s := RemoveAllBut(s2, tenant, Wants(lists, pos), w);
    LeadsJoin(s0, a, s1, b, s2, honest);
    LeadsJoin(s0, a + b, s2, c, s, honest);
    steps := a + b + c;
  }

  /** The first m calls are at their positions, the others as begun. */
  ghost predicate Arranged(s0: State, s: State, cyc: seq<TxId>, pos: seq<nat>, m: nat, tenant: TenantId)
    requires Calls(s0, cyc, tenant) && |pos| == |cyc| && m <= |cyc|
  {
    && Scanned(s0, s)
    && (forall q :: 0 <= q < m ==> CallArranged(s0, s, cyc[q], pos[q], tenant))
    && (forall q :: m <= q < |cyc| ==> s.txs[cyc[q]] == s0.txs[cyc[q]])
    && (forall k :: k in s.rowLocks ==> k in s.members && exists q :: 0 <= q < m && TakenBy(s0, cyc, pos, q, tenant, k))
  }

  ghost predicate CallArranged(s0: State, s: State, tx: TxId, p: nat, tenant: TenantId)
    requires IsChange(s0, tx)
  {
    && IsChange(s, tx) && s.txs[tx].next == p && s.txs[tx].locked.None?
    && forall j :: 0 <= j < p && j < |s0.txs[tx].scan| && Key(tenant, s0.txs[tx].scan[j]) in s.members ==>
         Holds(s, tx, Key(tenant, s0.txs[tx].scan[j]))
  }

  predicate TakenBy(s: State, cyc: seq<TxId>, pos: seq<nat>, q: nat, tenant: TenantId, k: Key)
    requires q < |cyc| == |pos| && IsChange(s, cyc[q])
  {
    k.tenant == tenant && Within(s.txs[cyc[q]].scan, pos[q], k.user)
  }

  /** No existing row is among those both calls pass. */
  predicate NoCommon(m: Members, x: Tx, p: nat, y: Tx, q: nat)
    requires x.Change? && y.Change?
  {
    forall j :: 0 <= j < p && j < |x.scan| && Key(x.tenant, x.scan[j]) in m ==> !Within(y.scan, q, x.scan[j])
  }

  ghost predicate Untangled(s: State, cyc: seq<TxId>, pos: seq<nat>, tenant: TenantId) {
    && Fresh(s, cyc, tenant) && s.rowLocks == map[] && |pos| == |cyc|
    && (forall m :: 0 <= m < |cyc| ==> pos[m] <= |s.txs[cyc[m]].scan|)
    && (forall m, q :: 0 <= m < |cyc| && 0 <= q < |cyc| && m != q ==>
          NoCommon(s.members, s.txs[cyc[m]], pos[m], s.txs[cyc[q]], pos[q]))
  }

  lemma WithinScan(t: Tx, n: nat, u: UserId)
    requires t.Change? && n <= |t.scan|
    ensures Within(t.scan, n, u) <==> Within(LockList(t), n, u)
  {
    if Within(t.scan, n, u) {
      var j :| 0 <= j < n && j < |t.scan| && t.scan[j] == u;
      assert LockList(t)[j] == u;
    }
    if Within(LockList(t), n, u) {
      var j :| 0 <= j < n && j < |LockList(t)| && LockList(t)[j] == u;
      assert t.scan[j] == u;
    }
  }

  lemma OnlyNextPassed(lists: seq<seq<UserId>>, pos: seq<nat>, rows: set<UserId>, u: UserId, m: nat, q: nat)
    requires Entangled(lists, pos, rows) && u in Wants(lists, pos) && m < |lists| && q < |lists| && m != q
    requires Within(lists[m], pos[m], u)
    ensures !Within(lists[q], pos[q], u)
  {
    var o :| 0 <= o < |lists| && lists[o][pos[o]] == u;
    assert Within(lists[m], pos[m], lists[o][pos[o]]) <==> m == Next(o, |lists|);
    assert Within(lists[q], pos[q], lists[o][pos[o]]) <==> q == Next(o, |lists|);
  }

  lemma ClearedHasNoCommon(s0: State, s: State, cyc: seq<TxId>, pos: seq<nat>, tenant: TenantId, m: nat, q: nat)
    requires Fresh(s0, cyc, tenant) && Entangled(Lists(s0, cyc), pos, Rows(s0.members, tenant))
    requires Cleared(s0, s, cyc, pos, tenant) && m < |cyc| && q < |cyc| && m != q
    ensures pos[m] <= |s.txs[cyc[m]].scan|
    ensures NoCommon(s.members, s.txs[cyc[m]], pos[m], s.txs[cyc[q]], pos[q])
  {
    var lists, x, y := Lists(s0, cyc), s.txs[cyc[m]], s.txs[cyc[q]];
    assert pos[m] < |lists[m]| && pos[q] < |lists[q]|;
    forall j | 0 <= j < pos[m] && j < |x.scan| && Key(x.tenant, x.scan[j]) in s.members
      ensures !Within(y.scan, pos[q], x.scan[j])
    {
      assert x.scan[j] in Rows(s.members, tenant) && Within(x.scan, pos[m], x.scan[j]);
      WithinScan(x, pos[m], x.scan[j]);
      WithinScan(y, pos[q], x.scan[j]);
      OnlyNextPassed(lists, pos, Rows(s0.members, tenant), x.scan[j], m, q);
    }
  }

  lemma ClearedIsUntangled(s0: State, s: State, cyc: seq<TxId>, pos: seq<nat>, tenant: TenantId)
    requires Fresh(s0, cyc, tenant) && Entangled(Lists(s0, cyc), pos, Rows(s0.members, tenant))
    requires Cleared(s0, s, cyc, pos, tenant)
    ensures Untangled(s, cyc, pos, tenant)
  {
    forall m, q | 0 <= m < |cyc| && 0 <= q < |cyc| && m != q
      ensures pos[m] <= |s.txs[cyc[m]].scan|
      ensures NoCommon(s.members, s.txs[cyc[m]], pos[m], s.txs[cyc[q]], pos[q])
    {
      ClearedHasNoCommon(s0, s, cyc, pos, tenant, m, q);
    }
    forall m | 0 <= m < |cyc| ensures pos[m] <= |s.txs[cyc[m]].scan| {
      ClearedHasNoCommon(s0, s, cyc, pos, tenant, m, Next(m, |cyc|));
    }
  }

  lemma StaysArranged(s0: State, s: State, s': State, tx: TxId, p: nat, tenant: TenantId)
    requires IsChange(s0, tx) && CallArranged(s0, s, tx, p, tenant) && Scanned(s, s') && s'.txs[tx] == s.txs[tx]
    ensures CallArranged(s0, s', tx, p, tenant)
  {
  }

  lemma ArrangedOneMore(s0: State, s: State, s': State, cyc: seq<TxId>, pos: seq<nat>, m: nat, tenant: TenantId)
    requires Untangled(s0, cyc, pos, tenant) && m < |cyc| && Arranged(s0, s, cyc, pos, m, tenant)
    requires IsChange(s, cyc[m]) && pos[m] <= |s.txs[cyc[m]].scan| && MovedTo(s, s', cyc[m], pos[m])
    ensures Arranged(s0, s', cyc, pos, m + 1, tenant)
  {
    assert s.txs[cyc[m]] == s0.txs[cyc[m]];
    assert CallArranged(s0, s', cyc[m], pos[m], tenant);
    forall q | 0 <= q < |cyc| && q != m ensures s'.txs[cyc[q]] == s.txs[cyc[q]] {
      assert cyc[q] != cyc[m] && cyc[q] in s.txs;
    }
    forall q | 0 <= q < m ensures CallArranged(s0, s', cyc[q], pos[q], tenant) {
      StaysArranged(s0, s, s', cyc[q], pos[q], tenant);
    }
    forall k | k in s'.rowLocks ensures k in s'.members && exists q :: 0 <= q < m + 1 && TakenBy(s0, cyc, pos, q, tenant, k) {
      if k in s.rowLocks {
        var q :| 0 <= q < m && TakenBy(s0, cyc, pos, q, tenant, k);
      } else {
        assert TakenBy(s0, cyc, pos, m, tenant, k);
      }
    }
  }

  lemma {:induction false} Arrange(s0: State, cyc: seq<TxId>, pos: seq<nat>, m: nat, tenant: TenantId)
    returns (steps: seq<Step>, s: State)
    requires Untangled(s0, cyc, pos, tenant) && m <= |cyc|
    ensures Leads(s0, steps, s, true) && Arranged(s0, s, cyc, pos, m, tenant)
  {
    if m == 0 {
      steps, s := [], s0;
      assert Exec(s0, []) == Some(s0);
    } else {
      var before, s1 := Arrange(s0, cyc, pos, m - 1, tenant);
      var more;
      more, s := ArrangeNext(s0, s1, cyc, pos, m - 1, tenant);
      LeadsJoin(s0, before, s1, more, s, true);
      steps := before + more;
    }
  }

  lemma ArrangeNext(s0: State, s: State, cyc: seq<TxId>, pos: seq<nat>, m: nat, tenant: TenantId)
    returns (steps: seq<Step>, s': State)
    requires Untangled(s0, cyc, pos, tenant) && m < |cyc| && Arranged(s0, s, cyc, pos, m, tenant)
    ensures Leads(s, steps, s', true) && Arranged(s0, s', cyc, pos, m + 1, tenant)
  {
    steps, s' := ScanTo(s, cyc[m], pos[m], true);
    ArrangedOneMore(s0, s, s', cyc, pos, m, tenant);
  }

  lemma PairWaits(s1: State, s: State, a: TxId, b: TxId, p: nat, q: nat, u: UserId, tenant: TenantId)
    requires IsChange(s1, a) && IsChange(s1, b) && a != b && Scanned(s1, s) && s1.txs[a].tenant == tenant
    requires CallArranged(s1, s, a, p, tenant) && CallArranged(s1, s, b, q, tenant)
    requires p < |LockList(s1.txs[a])| && LockList(s1.txs[a])[p] == u && Key(tenant, u) in s1.members
    requires Within(s1.txs[b].scan, q, u)
    ensures WaitsFor(s, a, b)
  {
    var j :| 0 <= j < q && j < |s1.txs[b].scan| && s1.txs[b].scan[j] == u;
    assert Holds(s, b, Key(tenant, s1.txs[b].scan[j]));
  }

  /** What call m wants is left, and call Next(m) passes it. */
  lemma ClearedWants(s0: State, s1: State, cyc: seq<TxId>, pos: seq<nat>, tenant: TenantId, m: nat)
    requires Fresh(s0, cyc, tenant) && Entangled(Lists(s0, cyc), pos, Rows(s0.members, tenant)) && m < |cyc|
    requires Cleared(s0, s1, cyc, pos, tenant) && Untangled(s1, cyc, pos, tenant)
    ensures var x, y := s1.txs[cyc[m]], s1.txs[cyc[Next(m, |cyc|)]];
            && pos[m] < |LockList(x)| && Key(tenant, LockList(x)[pos[m]]) in s1.members
            && Within(y.scan, pos[Next(m, |cyc|)], LockList(x)[pos[m]])
  {
    var lists, n := Lists(s0, cyc), Next(m, |cyc|);
    WantsFromNext(lists, pos, Rows(s0.members, tenant), m);
    assert lists[m][pos[m]] in Wants(lists, pos);
    assert lists[m][pos[m]] in Rows(s1.members, tenant);
    WithinScan(s1.txs[cyc[n]], pos[n], lists[m][pos[m]]);
  }

  lemma ArrangedWaits(s0: State, s1: State, s: State, cyc: seq<TxId>, pos: seq<nat>, tenant: TenantId)
    requires Fresh(s0, cyc, tenant) && Entangled(Lists(s0, cyc), pos, Rows(s0.members, tenant))
    requires Cleared(s0, s1, cyc, pos, tenant) && Untangled(s1, cyc, pos, tenant)
    requires Arranged(s1, s, cyc, pos, |cyc|, tenant)
    ensures WaitCycle(s, cyc)
  {
    forall m | 0 <= m < |cyc| ensures WaitsFor(s, cyc[m], cyc[Next(m, |cyc|)]) {
      ClearedWants(s0, s1, cyc, pos, tenant, m);
      assert CallArranged(s1, s, cyc[m], pos[m], tenant);
      assert CallArranged(s1, s, cyc[Next(m, |cyc|)], pos[Next(m, |cyc|)], tenant);
      PairWaits(s1, s, cyc[m], cyc[Next(m, |cyc|)], pos[m], pos[Next(m, |cyc|)],
                LockList(s1.txs[cyc[m]])[pos[m]], tenant);
    }
  }

  /** Entangled calls can be left alone with each other and run into the circle. */
  lemma Entangle(s0: State, cyc: seq<TxId>, pos: seq<nat>, tenant: TenantId) returns (steps: seq<Step>, s: State)
    requires LockInv(s0) && Fresh(s0, cyc, tenant) && Entangled(Lists(s0, cyc), pos, Rows(s0.members, tenant))
    ensures Leads(s0, steps, s, Owned(s0.members, tenant)) && WaitCycle(s, cyc)
    ensures s.txs.Keys == TxSet(cyc) && Live(s, cyc)
    ensures forall m :: 0 <= m < |cyc| ==> SameCall(s0.txs[cyc[m]], s.txs[cyc[m]])
  {
    var honest := Owned(s0.members, tenant);
    var a, s1 := Clear(s0, cyc, pos, tenant);
    ClearedIsUntangled(s0, s1, cyc, pos, tenant);
    var b;
    b, s := Arrange(s1, cyc, pos, |cyc|, tenant);
    LeadsJoin(s0, a, s1, b, s, honest);
    steps := a + b;
    ArrangedWaits(s0, s1, s, cyc, pos, tenant);
    forall m | 0 <= m < |cyc| ensures cyc[m] in s.txs && SameCall(s0.txs[cyc[m]], s.txs[cyc[m]]) {
      assert CallArranged(s1, s, cyc[m], pos[m], tenant) && IsChange(s1, cyc[m]);
    }
  }

  // ---------------------------------------------------------------- exactly when

  /** These steps of role changes and removals bring the very calls `cyc` to wait in a circle. Other
      transactions may begin, commit and abort meanwhile, and rows may go. */
  ghost predicate Deadlocks(s0: State, steps: seq<Step>, cyc: seq<TxId>, tenant: TenantId) {
    && LockSteps(steps) && Exec(s0, steps).Some?
    && var s := Exec(s0, steps).value;
       && Calls(s0, cyc, tenant) && Calls(s, cyc, tenant)
       && (forall m :: 0 <= m < |cyc| ==> SameCall(s0.txs[cyc[m]], s.txs[cyc[m]]))
       && WaitCycle(s, cyc)
  }

  ghost predicate HonestlyDeadlocks(s0: State, steps: seq<Step>, cyc: seq<TxId>, tenant: TenantId) {
    Deadlocks(s0, steps, cyc, tenant) && Honest(s0, steps)
  }

  lemma {:induction false} RowsOnlyGo(s: State, steps: seq<Step>, tenant: TenantId)
    requires LockInv(s) && LockSteps(steps) && Exec(s, steps).Some?
    ensures Rows(Exec(s, steps).value.members, tenant) <= Rows(s.members, tenant)
  {
    if steps != [] {
      var before := steps[..|steps| - 1];
      RowsOnlyGo(s, before, tenant);
      LockInvKept(s, before);
      NothingAppears(Exec(s, before).value, steps[|steps| - 1]);
    }
  }

  lemma DeadlockIsEntangled(s0: State, steps: seq<Step>, cyc: seq<TxId>, tenant: TenantId) returns (pos: seq<nat>)
    requires LockInv(s0) && Deadlocks(s0, steps, cyc, tenant)
    ensures Entangled(Lists(s0, cyc), pos, Rows(s0.members, tenant))
  {
    var s := Exec(s0, steps).value;
    LockInvKept(s0, steps);
    RowsOnlyGo(s0, steps, tenant);
    CycleIsEntangled(s, cyc, tenant);
    pos := Positions(s, cyc);
    assert Lists(s, cyc) == Lists(s0, cyc);
  }

  lemma EntangledDeadlocks(s0: State, cyc: seq<TxId>, pos: seq<nat>, tenant: TenantId) returns (steps: seq<Step>)
    requires LockInv(s0) && Fresh(s0, cyc, tenant) && Entangled(Lists(s0, cyc), pos, Rows(s0.members, tenant))
    ensures Deadlocks(s0, steps, cyc, tenant)
    ensures Owned(s0.members, tenant) ==> HonestlyDeadlocks(s0, steps, cyc, tenant)
  {
    var s;
    steps, s := Entangle(s0, cyc, pos, tenant);
  }

  /** Any number of calls that have just begun on one tenant can come to wait for each other in a circle,
      other role changes and removals of any kind interleaved, if and only if their lock lists, read off
      what each call has in hand, are entangled over the rows there are. */
  lemma DeadlockIff(s0: State, cyc: seq<TxId>, tenant: TenantId)
    requires LockInv(s0) && Fresh(s0, cyc, tenant)
    ensures (exists steps :: Deadlocks(s0, steps, cyc, tenant)) <==>
            (exists pos :: Entangled(Lists(s0, cyc), pos, Rows(s0.members, tenant)))
  {
    if steps :| Deadlocks(s0, steps, cyc, tenant) {
      var pos := DeadlockIsEntangled(s0, steps, cyc, tenant);
    }
    if pos :| Entangled(Lists(s0, cyc), pos, Rows(s0.members, tenant)) {
      var steps := EntangledDeadlocks(s0, cyc, pos, tenant);
    }
  }

  /** Dishonesty adds nothing: in a tenant that has an owner, the same condition decides whether runs in which
      every call reads the truth can deadlock. */
  lemma HonestDeadlockIff(s0: State, cyc: seq<TxId>, tenant: TenantId)
    requires LockInv(s0) && Fresh(s0, cyc, tenant) && Owned(s0.members, tenant)
    ensures (exists steps :: HonestlyDeadlocks(s0, steps, cyc, tenant)) <==>
            (exists pos :: Entangled(Lists(s0, cyc), pos, Rows(s0.members, tenant)))
  {
    if steps :| HonestlyDeadlocks(s0, steps, cyc, tenant) {
      var pos := DeadlockIsEntangled(s0, steps, cyc, tenant);
    }
    if pos :| Entangled(Lists(s0, cyc), pos, Rows(s0.members, tenant)) {
      var steps := EntangledDeadlocks(s0, cyc, pos, tenant);
    }
  }

  /** Any closed path of waits contains such a circle, so nothing else counts as a deadlock. */
  lemma {:induction false} SimpleCycle(s: State, p: seq<TxId>) returns (cyc: seq<TxId>)
    requires WaitPath(s, p) && p[0] == p[|p| - 1]
    ensures WaitCycle(s, cyc) && Distinct(cyc)
    decreases |p|
  {
    var q := p[..|p| - 1];
    assert WaitsFor(s, p[0], p[1]);
    if Distinct(q) {
      cyc := q;
      forall m | 0 <= m < |q| ensures WaitsFor(s, q[m], q[Next(m, |q|)]) {
        assert WaitsFor(s, p[m], p[m + 1]);
      }
    } else {
      var i, j :| 0 <= i < j < |q| && q[i] == q[j];
      var r := p[i..j + 1];
      forall k | 0 <= k < |r| - 1 ensures WaitsFor(s, r[k], r[k + 1]) {
        assert WaitsFor(s, p[i + k], p[i + k + 1]);
      }
      cyc := SimpleCycle(s, r);
    }
  }

  // ---------------------------------------------------------------- what is enough

  /** Whoever is waited for has passed a row. */
  lemma HasPassedFirst(s: State, cyc: seq<TxId>, tenant: TenantId, m: nat)
    requires LockInv(s) && Calls(s, cyc, tenant) && WaitCycle(s, cyc) && m < |cyc|
    ensures Within(LockList(s.txs[cyc[m]]), Pos(s.txs[cyc[m]]), LockList(s.txs[cyc[m]])[0])
  {
    var before := if m == 0 then |cyc| - 1 else m - 1;
    assert Next(before, |cyc|) == m;
    OnlyHolderPassed(s, cyc, tenant, before, m);
  }

  /** Calls that all lock the same row first do not deadlock while that row exists: it serializes them. Once
      it is removed they may. */
  lemma SameFirstRowIsSafe(s: State, cyc: seq<TxId>, tenant: TenantId, first: UserId)
    requires LockInv(s) && Calls(s, cyc, tenant) && Key(tenant, first) in s.members
    requires forall m :: 0 <= m < |cyc| ==> LockList(s.txs[cyc[m]])[0] == first
    ensures !WaitCycle(s, cyc)
  {
    if WaitCycle(s, cyc) {
      assert WaitsFor(s, cyc[0], cyc[Next(0, |cyc|)]) && WaitsFor(s, cyc[1], cyc[Next(1, |cyc|)]);
      HasPassedFirst(s, cyc, tenant, 0);
      HasPassedFirst(s, cyc, tenant, 1);
      PassedIsHeld(s, cyc[0], first);
      PassedIsHeld(s, cyc[1], first);
    }
  }

  /** Two calls may disagree about each other's targets and be safe whatever is removed: of these, begun after
      member 5 was promoted between the two scans, each locks row 1 before anything the other could want. */
  lemma UntidyYetSafe(a: Tx, b: Tx, pos: seq<nat>, rows: set<UserId>)
    requires a.Change? && a.scan == [1] && a.target == 5
    requires b.Change? && b.scan == [1, 5] && b.target == 1
    ensures a.target in b.scan && a.target !in a.scan
    ensures !Entangled([LockList(a), LockList(b)], pos, rows)
  {
    var lists := [LockList(a), LockList(b)];
    assert b.scan[1] == a.target;
    assert lists[0] == [1, 5] && lists[1] == [1, 5, 1];
    assert lists[0][0] == 1 && lists[1][0] == 1;
    assert forall p: nat :: p > 0 ==> Within(lists[1], p, 1);
    if Entangled(lists, pos, rows) {
    }
  }

  /** Calls that agree on each other's targets are never entangled. */
  lemma TidyIsSafe(s0: State, cyc: seq<TxId>, pos: seq<nat>, tenant: TenantId)
    requires LockInv(s0) && Fresh(s0, cyc, tenant)
    requires forall m, k :: 0 <= m < |cyc| && 0 <= k < |cyc| && s0.txs[cyc[m]].target in s0.txs[cyc[k]].scan ==>
               s0.txs[cyc[m]].target in s0.txs[cyc[m]].scan
    ensures !Entangled(Lists(s0, cyc), pos, Rows(s0.members, tenant))
  {
    if Entangled(Lists(s0, cyc), pos, Rows(s0.members, tenant)) {
      var steps, s := Entangle(s0, cyc, pos, tenant);
      LockInvKept(s0, steps);
      CircleIsUntidy(s, cyc);
    }
  }

  lemma CircleIsUntidy(s: State, cyc: seq<TxId>)
    requires LockInv(s) && WaitCycle(s, cyc)
    ensures !Tidy(s)
  {
    if Tidy(s) {
      var p := cyc + [cyc[0]];
      forall m | 0 <= m < |p| - 1 ensures WaitsFor(s, p[m], p[m + 1]) {
        assert WaitsFor(s, cyc[m], cyc[Next(m, |cyc|)]);
      }
      PathPointsForward(s, p);
    }
  }
}

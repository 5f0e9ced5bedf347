/** Runs in which every transaction told the truth about what it read, and which still end badly: two
    deadlocks of the ordered owner lock, and an admin demoting an owner. */
module MembershipRaces {
  import opened Base
  import opened TenantDomain
  import opened Membership
  import opened MembershipProtocol
  import opened OwnerLocks
  import opened OwnerSolo
  import opened OwnerDeadlock

  lemma Go(s0: State, steps: seq<Step>, s: State, step: Step) returns (more: seq<Step>)
    requires Leads(s0, steps, s, true) && Enabled(s, step) && HonestBegin(s, step) && LockStep(step)
    ensures Leads(s0, more, Apply(s, step), true)
  {
    more := steps + [step];
    assert more[..|steps|] == steps;
  }

  function Start(members: Members): State { State(members, {"t"}, map[], map[], map[], map[], []) }

  /** Transaction `tx` locks owner `u`, next in its scan. */
  lemma LockOwner(s0: State, steps: seq<Step>, s: State, tx: TxId, u: UserId) returns (more: seq<Step>, s': State)
    requires Leads(s0, steps, s, true) && IsChange(s, tx)
    requires s.txs[tx].next < |s.txs[tx].scan| && s.txs[tx].scan[s.txs[tx].next] == u
    requires IsOwner(s.members, s.txs[tx].tenant, u) && Key(s.txs[tx].tenant, u) !in s.rowLocks
    ensures Leads(s0, more, s', true)
    ensures var t := s.txs[tx];
            s' == s.(rowLocks := s.rowLocks[Key(t.tenant, u) := tx],
                     txs := s.txs[tx := t.(next := t.next + 1, verified := t.verified + {u})])
  {
    s' := Apply(s, LockNext(tx));
    more := Go(s0, steps, s, LockNext(tx));
  }

  /** Transaction `tx`, done scanning, locks its target. */
  lemma LockTargetRow(s0: State, steps: seq<Step>, s: State, tx: TxId) returns (more: seq<Step>, s': State)
    requires Leads(s0, steps, s, true) && IsChange(s, tx)
    requires s.txs[tx].next == |s.txs[tx].scan| && s.txs[tx].locked.None?
    requires Key(s.txs[tx].tenant, s.txs[tx].target) in s.members
    requires Key(s.txs[tx].tenant, s.txs[tx].target) !in s.rowLocks
    ensures Leads(s0, more, s', true)
    ensures var t := s.txs[tx];
            s' == s.(rowLocks := s.rowLocks[Key(t.tenant, t.target) := tx],
                     txs := s.txs[tx := t.(locked := Some(s.members[Key(t.tenant, t.target)]))])
  {
    s' := Apply(s, LockTarget(tx));
    more := Go(s0, steps, s, LockTarget(tx));
  }

  /** Transaction `tx` begins, having read the truth. */
  lemma BeginHonestly(s0: State, steps: seq<Step>, s: State, begin: Step) returns (more: seq<Step>, s': State)
    requires Leads(s0, steps, s, true) && begin.Begin? && Enabled(s, begin) && HonestBegin(s, begin)
    ensures Leads(s0, more, s', true)
    ensures s' == s.(txs := s.txs[begin.tx := Change(begin.tenant, begin.target, begin.intent, begin.live, begin.seen,
                                                    begin.scan, 0, {}, None)])
  {
    s' := Apply(s, begin);
    more := Go(s0, steps, s, begin);
  }

  /** Transaction `tx`, the only one holding locks, promotes its target and ends. */
  lemma CommitPromotion(s0: State, steps: seq<Step>, s: State, tx: TxId) returns (more: seq<Step>, s': State)
    requires Leads(s0, steps, s, true) && IsChange(s, tx) && s.txs[tx].locked.Some? && s.txs[tx].intent == SetRole(Owner)
    requires s.inviteLocks == map[] && forall k :: k in s.rowLocks ==> s.rowLocks[k] == tx
    ensures Leads(s0, more, s', true)
    ensures s' == s.(members := s.members[Key(s.txs[tx].tenant, s.txs[tx].target) := Owner],
                     rowLocks := map[], txs := s.txs - {tx})
  {
    s' := Apply(s, Commit(tx));
    more := Go(s0, steps, s, Commit(tx));
  }

  function TwoOwnersToBe(): Members { map[Key("t", 1) := Editor, Key("t", 2) := Owner] }

  function Removal(): Tx { Change("t", 1, Remove, Owner, None, [2], 0, {}, None) }

  /** Owner 2 starts removing member 1 (transaction 0, having read the owners [2]), then promotes member 1
      in transaction 1, which commits. */
  lemma PromotedMeanwhile() returns (steps: seq<Step>, s: State)
    ensures Leads(Start(TwoOwnersToBe()), steps, s, true)
    ensures s == Start(TwoOwnersToBe()[Key("t", 1) := Owner]).(txs := map[0 := Removal()])
  {
    var s0 := Start(TwoOwnersToBe());
    var begin := Begin(0, "t", 2, 1, Remove, Owner, None, [2]);
    steps, s := BeginHonestly(s0, [], s0, begin);
    var promote := Begin(1, "t", 2, 1, SetRole(Owner), Owner, None, [2]);
    steps, s := BeginHonestly(s0, steps, s, promote);
    steps, s := LockOwner(s0, steps, s, 1, 2);
    steps, s := LockTargetRow(s0, steps, s, 1);
    steps, s := CommitPromotion(s0, steps, s, 1);
    assert s.txs == map[0 := Removal()];
    assert s.members == TwoOwnersToBe()[Key("t", 1) := Owner];
  }

  /** The promoted owner 1 then starts demoting owner 2 (transaction 2, having read the owners [1, 2]), and
      transactions 0 and 2 each end up holding the row the other one needs: locking owners in user order
      does not by itself exclude a deadlock. */
  lemma DeadlockFromHonestSnapshots() returns (s0: State, steps: seq<Step>, s: State)
    ensures Quiet(s0) && Leads(s0, steps, s, true) && WaitsFor(s, 0, 2) && WaitsFor(s, 2, 0)
    ensures s.txs[0].tenant == s.txs[2].tenant && s.txs[0].target in s.txs[2].scan && s.txs[0].target !in s.txs[0].scan
  {
    s0 := Start(TwoOwnersToBe());
    steps, s := PromotedMeanwhile();
    steps, s := LockOwner(s0, steps, s, 0, 2);
    var begin := Begin(2, "t", 1, 2, SetRole(Editor), Owner, None, [1, 2]);
    steps, s := BeginHonestly(s0, steps, s, begin);
    steps, s := LockOwner(s0, steps, s, 2, 1);
  }

  /** What the two calls read already shows it: removing 1 locks 2 then 1, demoting 2 locks 1 then 2. */
  lemma TheRaceIsEntangled(removal: Tx, demotion: Tx)
    requires removal.Change? && removal.scan == [2] && removal.target == 1
    requires demotion.Change? && demotion.scan == [1, 2] && demotion.target == 2
    ensures Entangled([LockList(removal), LockList(demotion)], [1, 1], {1, 2})
  {
    var lists := [LockList(removal), LockList(demotion)];
    assert lists[0] == [2, 1] && lists[1] == [1, 2, 2];
    assert lists[0][0] == 2 && lists[1][0] == 1;
    assert Within(lists[1], 1, lists[0][1]) && Within(lists[0], 1, lists[1][1]);
  }

  function TwoOwnersAndOneToBe(): Members { map[Key("t", 0) := Owner, Key("t", 1) := Editor, Key("t", 2) := Owner] }

  lemma SecondRaceIsEntangled(removal: Tx, demotion: Tx)
    requires removal.Change? && removal.scan == [0, 2] && removal.target == 1
    requires demotion.Change? && demotion.scan == [0, 1, 2] && demotion.target == 2
    ensures LockList(removal)[0] == LockList(demotion)[0]
    ensures Entangled([LockList(removal), LockList(demotion)], [2, 2], {0, 1, 2})
  {
    var lists := [LockList(removal), LockList(demotion)];
    assert lists[0] == [0, 2, 1] && lists[1] == [0, 1, 2, 2];
    assert lists[0][1] == 2 && lists[1][1] == 1;
    assert Within(lists[1], 2, lists[0][2]) && Within(lists[0], 2, lists[1][2]);
  }

  function SecondRemoval(): Tx { Change("t", 1, Remove, Owner, None, [0, 2], 0, {}, None) }

  /** Owner 2 starts removing member 1 (transaction 0), and owner 0 promotes 1. */
  lemma PromotedAgain() returns (steps: seq<Step>, s: State)
    ensures Leads(Start(TwoOwnersAndOneToBe()), steps, s, true)
    ensures s.members == TwoOwnersAndOneToBe()[Key("t", 1) := Owner]
    ensures s.txs == map[0 := SecondRemoval()] && s.rowLocks == map[]
  {
    var s0 := Start(TwoOwnersAndOneToBe());
    var removal := Begin(0, "t", 2, 1, Remove, Owner, None, [0, 2]);
    var first, s1 := BeginHonestly(s0, [], s0, removal);
    assert s1.txs == map[0 := SecondRemoval()];
    var promotion;
    promotion, s := RunAlone(s1, Key("t", 1), SetRole(Owner), 0, true);
    LeadsJoin(s0, first, s1, promotion, s, true);
    steps := first + promotion;
  }

  /** Then 1 starts demoting 2 (transaction 2). */
  lemma BothBegun() returns (steps: seq<Step>, s: State)
    ensures Leads(Start(TwoOwnersAndOneToBe()), steps, s, true) && Fresh(s, [0, 2], "t")
    ensures IsChange(s, 0) && s.txs[0].scan == [0, 2] && s.txs[0].target == 1
    ensures IsChange(s, 2) && s.txs[2].scan == [0, 1, 2] && s.txs[2].target == 2
    ensures Rows(s.members, "t") == {0, 1, 2} && IsOwner(s.members, "t", 0)
  {
    var s1;
    steps, s1 := PromotedAgain();
    var demotion := Begin(2, "t", 1, 2, SetRole(Editor), Owner, None, [0, 1, 2]);
    steps, s := BeginHonestly(Start(TwoOwnersAndOneToBe()), steps, s1, demotion);
  }

  /** Both calls lock row 0 first, and still they deadlock once a third call has removed owner 0: each then
      skips the row that would have kept them apart. */
  lemma SharedFirstRowGoes() returns (s0: State, steps: seq<Step>, s: State, more: seq<Step>)
    ensures Quiet(s0) && Leads(s0, steps, s, true) && Fresh(s, [0, 2], "t")
    ensures IsChange(s, 0) && IsChange(s, 2) && LockList(s.txs[0])[0] == LockList(s.txs[2])[0]
    ensures HonestlyDeadlocks(s, more, [0, 2], "t")
  {
    s0 := Start(TwoOwnersAndOneToBe());
    steps, s := BothBegun();
    LocksReachable(s0, steps);
    SecondRaceIsEntangled(s.txs[0], s.txs[2]);
    assert Lists(s, [0, 2]) == [LockList(s.txs[0]), LockList(s.txs[2])];
    more := EntangledDeadlocks(s, [0, 2], [2, 2], "t");
  }

  function AdminAndOwners(): Members {
    map[Key("t", 1) := Owner, Key("t", 2) := Editor, Key("t", 3) := Owner, Key("t", 5) := Admin]
  }

  function AdminsRequest(): Tx { Change("t", 2, SetRole(Viewer), Admin, Some(Editor), [1, 3], 0, {}, None) }

  function Promotion(): Tx { Change("t", 2, SetRole(Owner), Owner, None, [1, 3], 0, {}, None) }

  lemma BothBegin() returns (steps: seq<Step>, s: State)
    ensures Leads(Start(AdminAndOwners()), steps, s, true)
    ensures s == Start(AdminAndOwners()).(txs := map[0 := AdminsRequest(), 1 := Promotion()])
  {
    var s0 := Start(AdminAndOwners());
    var request := Begin(0, "t", 5, 2, SetRole(Viewer), Admin, Some(Editor), [1, 3]);
    steps, s := BeginHonestly(s0, [], s0, request);
    var promote := Begin(1, "t", 1, 2, SetRole(Owner), Owner, None, [1, 3]);
    steps, s := BeginHonestly(s0, steps, s, promote);
    assert s.txs == map[0 := AdminsRequest(), 1 := Promotion()];
  }

  /** Admin 5 asks to make editor 2 a viewer (transaction 0); owner 1 promotes 2 (transaction 1) first. */
  lemma PromotedUnderTheAdmin() returns (steps: seq<Step>, s: State)
    ensures Leads(Start(AdminAndOwners()), steps, s, true)
    ensures s == Start(AdminAndOwners()[Key("t", 2) := Owner]).(txs := map[0 := AdminsRequest()])
  {
    var s0 := Start(AdminAndOwners());
    steps, s := BothBegin();
    steps, s := LockOwner(s0, steps, s, 1, 1);
    steps, s := LockOwner(s0, steps, s, 1, 3);
    steps, s := LockTargetRow(s0, steps, s, 1);
    steps, s := CommitPromotion(s0, steps, s, 1);
    assert s.txs == map[0 := AdminsRequest()];
  }

  /** The admin's commit then demotes an owner, which the service refuses when it sees it coming. */
  lemma AdminDemotesAnOwner() returns (s0: State, steps: seq<Step>, s: State)
    ensures Quiet(s0) && Leads(s0, steps, s, true) && Enabled(s, Commit(0))
    ensures s.txs[0].Change? && s.txs[0].live == Admin && IsOwner(s.members, "t", 2)
    ensures Apply(s, Commit(0)).members == s.members[Key("t", 2) := Viewer]
  {
    s0 := Start(AdminAndOwners());
    steps, s := PromotedUnderTheAdmin();
    steps, s := LockOwner(s0, steps, s, 0, 1);
    steps, s := LockOwner(s0, steps, s, 0, 3);
    steps, s := LockTargetRow(s0, steps, s, 0);
    assert s.txs[0].verified == {1, 3} && |{1, 3}| == 2;
  }
}

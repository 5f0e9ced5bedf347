/** Who waits for whom while role changes and removals lock a tenant's owners in user order and then their
    target: when the wait-for graph has no cycle, and that everybody then finishes. */
module OwnerLocks {
  import opened Base
  import opened Membership
  import opened MembershipProtocol

  // ---------------------------------------------------------------- runs of role changes and removals only

  predicate LockStep(step: Step) {
    step.Begin? || step.LockNext? || step.LockTarget? || step.Commit? || step.Abort?
  }

  predicate LockSteps(steps: seq<Step>) {
    forall i :: 0 <= i < |steps| ==> LockStep(steps[i])
  }

  predicate Holds(s: State, tx: TxId, k: Key) { k in s.rowLocks && s.rowLocks[k] == tx }

  /** A row lock belongs to a live change that has already scanned the row, or that has it as its locked target. */
  ghost predicate HeldOk(s: State, k: Key) {
    k in s.rowLocks ==>
      && IsChange(s, s.rowLocks[k])
      && var t := s.txs[s.rowLocks[k]];
         && k.tenant == t.tenant
         && ((t.locked.Some? && k.user == t.target)
             || exists j :: 0 <= j < t.next && j < |t.scan| && t.scan[j] == k.user)
  }

  /** A row already scanned is either gone for good or locked by the scanner. */
  ghost predicate PassedOk(s: State, tx: TxId) {
    IsChange(s, tx) ==>
      var t := s.txs[tx];
      && (forall j :: 0 <= j < t.next && j < |t.scan| && Key(t.tenant, t.scan[j]) in s.members ==>
            Holds(s, tx, Key(t.tenant, t.scan[j])))
      && (t.locked.Some? ==> t.next == |t.scan|)
  }

  ghost predicate LockInv(s: State) {
    && Inv(s)
    && (forall k :: HeldOk(s, k))
    && (forall tx :: PassedOk(s, tx))
    && (forall tx :: tx in s.txs ==> s.txs[tx].Change?)
  }

  lemma StepKeepsHeld(s: State, step: Step, k: Key)
    requires LockInv(s) && LockStep(step) && Enabled(s, step)
    ensures HeldOk(Apply(s, step), k)
  {
    assert HeldOk(s, k);
    var s' := Apply(s, step);
    if k in s'.rowLocks && step.LockNext? {
      var t, t' := s.txs[step.tx], s'.txs[step.tx];
      if s'.rowLocks[k] == step.tx && Wanted(t) == Some(k) {
        assert t'.scan[t.next] == k.user;
      }
    }
  }

  /** Role changes and removals insert no row. */
  lemma NothingAppears(s: State, step: Step)
    requires LockInv(s) && LockStep(step) && Enabled(s, step)
    ensures forall k :: k in Apply(s, step).members ==> k in s.members
  {
    if step.Commit? {
      assert TxOk(s, step.tx);
    }
  }

  lemma PassedUndisturbed(s: State, s': State, tx: TxId)
    requires PassedOk(s, tx) && Undisturbed(s, s', tx)
    requires tx in s'.txs ==> tx in s.txs && s'.txs[tx] == s.txs[tx]
    requires forall k :: k in s'.members ==> k in s.members
    ensures PassedOk(s', tx)
  {
  }

  lemma OwnStepKeepsPassed(s: State, step: Step)
    requires LockInv(s) && LockStep(step) && Enabled(s, step)
    ensures PassedOk(Apply(s, step), step.tx)
  {
    assert PassedOk(s, step.tx) && TxOk(s, step.tx);
    match step
    case LockNext(tx) =>
      var k := Wanted(s.txs[tx]).value;
      assert k in s.members ==> Holds(Apply(s, step), tx, k);
    case LockTarget(tx) =>
    case Commit(tx) =>
    case _ =>
  }

  lemma StepKeepsPassed(s: State, step: Step, tx: TxId)
    requires LockInv(s) && LockStep(step) && Enabled(s, step)
    ensures PassedOk(Apply(s, step), tx)
  {
    if Concerns(step, tx) {
      OwnStepKeepsPassed(s, step);
    } else {
      StepDisturbsNoOther(s, step, tx);
      NothingAppears(s, step);
      assert PassedOk(s, tx);
      PassedUndisturbed(s, Apply(s, step), tx);
    }
  }

  lemma StepKeepsLockInv(s: State, step: Step)
    requires LockInv(s) && LockStep(step) && Enabled(s, step)
    ensures LockInv(Apply(s, step))
  {
    StepKeepsInv(s, step);
    forall k ensures HeldOk(Apply(s, step), k) {
      StepKeepsHeld(s, step, k);
    }
    forall tx ensures PassedOk(Apply(s, step), tx) {
      StepKeepsPassed(s, step, tx);
    }
  }

  lemma {:induction false} LockInvKept(s: State, steps: seq<Step>)
    requires LockInv(s) && LockSteps(steps) && Exec(s, steps).Some?
    ensures LockInv(Exec(s, steps).value)
  {
    if steps != [] {
      LockInvKept(s, steps[..|steps| - 1]);
      StepKeepsLockInv(Exec(s, steps[..|steps| - 1]).value, steps[|steps| - 1]);
    }
  }

  lemma LocksReachable(s: State, steps: seq<Step>)
    requires Quiet(s) && LockSteps(steps) && Exec(s, steps).Some?
    ensures LockInv(Exec(s, steps).value)
  {
    LockInvKept(s, steps);
  }

  // ---------------------------------------------------------------- the wait-for graph

  /** `a`'s next lock is on a row `b` holds. */
  predicate WaitsFor(s: State, a: TxId, b: TxId) {
    && IsChange(s, a) && b != a
    && Wanted(s.txs[a]).Some? && Wanted(s.txs[a]).value in s.members && Holds(s, b, Wanted(s.txs[a]).value)
  }

  predicate Blocked(s: State, a: TxId) {
    && IsChange(s, a) && Wanted(s.txs[a]).Some? && Wanted(s.txs[a]).value in s.members
    && !Free(s, Wanted(s.txs[a]).value, a)
  }

  /** No two live transactions on one tenant disagree about whether the first one's target was an owner. */
  ghost predicate Tidy(s: State) {
    forall a, b :: IsChange(s, a) && IsChange(s, b) && s.txs[a].tenant == s.txs[b].tenant ==>
      s.txs[a].target in s.txs[b].scan ==> s.txs[a].target in s.txs[a].scan
  }

  /** Scanning, then waiting for the target, then deciding. */
  function Stage(t: Tx): nat
    requires t.Change?
  {
    if t.next < |t.scan| then 0 else if t.locked.None? then 1 else 2
  }

  predicate Behind(s: State, a: TxId, b: TxId) {
    && IsChange(s, a) && IsChange(s, b)
    && var x, y := s.txs[a], s.txs[b];
       (Stage(x) < Stage(y) || (Stage(x) == 0 && Stage(y) == 0 && x.scan[x.next] < y.scan[y.next]))
  }

  /** A transaction done scanning that scanned its own target holds it. */
  lemma ScannedTargetIsHeld(s: State, a: TxId)
    requires LockInv(s) && IsChange(s, a) && Stage(s.txs[a]) == 1
    requires Key(s.txs[a].tenant, s.txs[a].target) in s.members
    ensures s.txs[a].target in s.txs[a].scan ==> Holds(s, a, Key(s.txs[a].tenant, s.txs[a].target))
  {
    var x := s.txs[a];
    assert PassedOk(s, a) && TxOk(s, a);
    if x.target in x.scan {
      var i :| 0 <= i < |x.scan| && x.scan[i] == x.target;
      assert Key(x.tenant, x.scan[i]) in s.members;
    }
  }

  /** Waiting points strictly forward: to a later stage, or to a higher user within the scan. */
  lemma WaitingPointsForward(s: State, a: TxId, b: TxId)
    requires LockInv(s) && Tidy(s) && WaitsFor(s, a, b)
    ensures Behind(s, a, b)
  {
    var x, k := s.txs[a], Wanted(s.txs[a]).value;
    assert HeldOk(s, k) && TxOk(s, b) && TxOk(s, a) && PassedOk(s, a) && PassedOk(s, b);
    var y := s.txs[b];
    if Stage(x) == 0 {
      if Stage(y) == 0 {
        var j :| 0 <= j < y.next && j < |y.scan| && y.scan[j] == k.user;
        assert y.scan[j] < y.scan[y.next];
      }
    } else {
      ScannedTargetIsHeld(s, a);
      assert x.target !in x.scan;
    }
  }

  ghost predicate WaitPath(s: State, p: seq<TxId>) {
    |p| >= 2 && forall i :: 0 <= i < |p| - 1 ==> WaitsFor(s, p[i], p[i + 1])
  }

  lemma {:induction false} PathPointsForward(s: State, p: seq<TxId>)
    requires LockInv(s) && Tidy(s) && WaitPath(s, p)
    ensures Behind(s, p[0], p[|p| - 1])
    decreases |p|
  {
    WaitingPointsForward(s, p[|p| - 2], p[|p| - 1]);
    if |p| > 2 {
      var q := p[..|p| - 1];
      assert forall i :: 0 <= i < |q| ==> q[i] == p[i];
      PathPointsForward(s, q);
    }
  }

  /** No cycle of waits in any state reached by role changes and removals, as long as their snapshots agree
      about each other's targets. */
  lemma NoDeadlock(s: State, steps: seq<Step>, p: seq<TxId>)
    requires Quiet(s) && LockSteps(steps) && Exec(s, steps).Some?
    requires Tidy(Exec(s, steps).value) && WaitPath(Exec(s, steps).value, p)
    ensures p[0] != p[|p| - 1]
  {
    LocksReachable(s, steps);
    PathPointsForward(Exec(s, steps).value, p);
  }

  /** Owners demoting each other from the same list of owners are tidy. */
  lemma SameScanIsTidy(s: State)
    requires forall a, b :: IsChange(s, a) && IsChange(s, b) && s.txs[a].tenant == s.txs[b].tenant ==>
               s.txs[a].scan == s.txs[b].scan
    ensures Tidy(s)
  {
  }

  // ---------------------------------------------------------------- everybody finishes

  /** The next step of a transaction that is not blocked. */
  function NextStep(s: State, tx: TxId): Step
    requires IsChange(s, tx)
  {
    match Stage(s.txs[tx])
    case 0 => LockNext(tx)
    case 1 => LockTarget(tx)
    case _ => Commit(tx)
  }

  ghost predicate Foremost(s: State, tx: TxId, among: set<TxId>) {
    IsChange(s, tx) && forall other :: other in among ==> !Behind(s, tx, other)
  }

  lemma {:induction false} SomeForemost(s: State, among: set<TxId>) returns (tx: TxId)
    requires LockInv(s) && among != {} && forall a :: a in among ==> IsChange(s, a)
    ensures tx in among && Foremost(s, tx, among)
    decreases |among|
  {
    var a :| a in among;
    if among == {a} {
      tx := a;
    } else {
      assert |among - {a}| < |among|;
      var best := SomeForemost(s, among - {a});
      tx := if Behind(s, best, a) then a else best;
      forall other | other in among ensures !Behind(s, tx, other) {
        if other != a {
          assert other in among - {a} && !Behind(s, best, other);
        }
      }
    }
  }

  lemma ForemostIsFree(s: State, tx: TxId)
    requires LockInv(s) && Tidy(s) && Foremost(s, tx, s.txs.Keys)
    ensures !Blocked(s, tx)
  {
    if Blocked(s, tx) {
      var b := s.rowLocks[Wanted(s.txs[tx]).value];
      assert HeldOk(s, Wanted(s.txs[tx]).value);
      WaitingPointsForward(s, tx, b);
    }
  }

  /** Some transaction can always step. */
  lemma SomeoneCanStep(s: State, steps: seq<Step>) returns (tx: TxId)
    requires Quiet(s) && LockSteps(steps) && Exec(s, steps).Some?
    requires Tidy(Exec(s, steps).value) && Exec(s, steps).value.txs != map[]
    ensures IsChange(Exec(s, steps).value, tx) && Enabled(Exec(s, steps).value, NextStep(Exec(s, steps).value, tx))
  {
    LocksReachable(s, steps);
    var now := Exec(s, steps).value;
    assert now.txs.Keys != {};
    tx := SomeForemost(now, now.txs.Keys);
    ForemostIsFree(now, tx);
  }

  predicate Advancing(steps: seq<Step>) {
    forall i :: 0 <= i < |steps| ==> steps[i].LockNext? || steps[i].LockTarget? || steps[i].Commit?
  }

  function Left(t: Tx): nat
    requires t.Change?
  {
    (if t.next < |t.scan| then |t.scan| - t.next else 0) + (if t.locked.None? then 2 else 1)
  }

  /** `s'` is `s` after a step of `tx`, as far as the transactions go. */
  ghost predicate Advanced(s: State, s': State, tx: TxId)
    requires IsChange(s, tx)
  {
    && (forall other :: other != tx ==> (other in s'.txs <==> other in s.txs))
    && (forall other :: other != tx && other in s.txs ==> s'.txs[other] == s.txs[other])
    && (tx in s'.txs ==>
          && s'.txs[tx].Change? && s'.txs[tx].tenant == s.txs[tx].tenant && s'.txs[tx].target == s.txs[tx].target
          && s'.txs[tx].scan == s.txs[tx].scan
          && Left(s'.txs[tx]) < Left(s.txs[tx])
          && (Stage(s'.txs[tx]) > Stage(s.txs[tx])
              || (Stage(s.txs[tx]) == 0 && s'.txs[tx].next == s.txs[tx].next + 1)))
  }

  lemma OwnStep(s: State, tx: TxId)
    requires LockInv(s) && IsChange(s, tx) && Enabled(s, NextStep(s, tx))
    ensures Advanced(s, Apply(s, NextStep(s, tx)), tx)
  {
    assert TxOk(s, tx);
  }

  lemma AdvancedStaysForemost(s: State, s': State, tx: TxId)
    requires LockInv(s) && LockInv(s') && Foremost(s, tx, s.txs.Keys) && Advanced(s, s', tx)
    ensures tx in s'.txs ==> s'.txs.Keys == s.txs.Keys && Foremost(s', tx, s'.txs.Keys)
    ensures tx !in s'.txs ==> s'.txs.Keys == s.txs.Keys - {tx}
  {
    assert TxOk(s', tx);
    forall other | tx in s'.txs && other in s'.txs ensures !Behind(s', tx, other) {
      if other != tx {
        assert !Behind(s, tx, other);
      }
    }
  }

  lemma AdvancedStaysTidy(s: State, s': State, tx: TxId)
    requires IsChange(s, tx) && Tidy(s) && Advanced(s, s', tx)
    ensures Tidy(s')
  {
  }

  /** The foremost transaction's step keeps it foremost and brings it nearer its end. */
  lemma ForemostAdvances(s: State, tx: TxId) returns (s': State)
    requires LockInv(s) && Tidy(s) && Foremost(s, tx, s.txs.Keys)
    ensures var step := NextStep(s, tx); Enabled(s, step) && Advancing([step]) && s' == Apply(s, step)
    ensures LockInv(s') && Tidy(s')
    ensures tx !in s'.txs ==> s'.txs.Keys == s.txs.Keys - {tx}
    ensures tx in s'.txs ==> && s'.txs.Keys == s.txs.Keys && Foremost(s', tx, s'.txs.Keys)
                             && Left(s'.txs[tx]) < Left(s.txs[tx])
  {
    ForemostIsFree(s, tx);
    s' := Apply(s, NextStep(s, tx));
    StepKeepsLockInv(s, NextStep(s, tx));
    OwnStep(s, tx);
    AdvancedStaysTidy(s, s', tx);
    AdvancedStaysForemost(s, s', tx);
  }

  lemma ExecThen(s: State, first: Step, rest: seq<Step>)
    requires Enabled(s, first)
    ensures Exec(s, [first] + rest) == Exec(Apply(s, first), rest)
    decreases |rest|
  {
    var all := [first] + rest;
    if rest == [] {
      assert all[..0] == [];
      assert Exec(s, []) == Some(s);
    } else {
      assert all[..|all| - 1] == [first] + rest[..|rest| - 1];
      ExecThen(s, first, rest[..|rest| - 1]);
    }
  }

  lemma {:induction false} ExecJoin(s: State, a: seq<Step>, b: seq<Step>)
    requires Exec(s, a).Some?
    ensures Exec(s, a + b) == Exec(Exec(s, a).value, b)
    decreases |b|
  {
    if b == [] {
      assert a + b == a;
    } else {
      assert (a + b)[..|a + b| - 1] == a + b[..|b| - 1];
      ExecJoin(s, a, b[..|b| - 1]);
    }
  }

  lemma {:induction false} ForemostFinishes(s: State, tx: TxId) returns (steps: seq<Step>)
    requires LockInv(s) && Tidy(s) && Foremost(s, tx, s.txs.Keys)
    ensures Advancing(steps) && Exec(s, steps).Some?
    ensures var s' := Exec(s, steps).value; LockInv(s') && Tidy(s') && s'.txs.Keys == s.txs.Keys - {tx}
    decreases Left(s.txs[tx])
  {
    var s' := ForemostAdvances(s, tx);
    var step := NextStep(s, tx);
    var rest := [];
    if tx in s'.txs {
      rest := ForemostFinishes(s', tx);
    }
    ExecThen(s, step, rest);
    steps := [step] + rest;
  }

  lemma {:induction false} AllFinish(s: State) returns (steps: seq<Step>)
    requires LockInv(s) && Tidy(s)
    ensures Advancing(steps) && Exec(s, steps).Some? && Exec(s, steps).value.txs == map[]
    decreases |s.txs.Keys|
  {
    steps := [];
    if s.txs.Keys == {} {
      assert s.txs == map[];
    } else {
      var tx := SomeForemost(s, s.txs.Keys);
      var first := ForemostFinishes(s, tx);
      var s' := Exec(s, first).value;
      assert s.txs.Keys == s'.txs.Keys + {tx};
      var rest := AllFinish(s');
      ExecJoin(s, first, rest);
      steps := first + rest;
    }
  }

  /** From every reachable tidy state all transactions can run to their end, none of them aborted. */
  lemma EveryoneFinishes(s: State, steps: seq<Step>) returns (more: seq<Step>)
    requires Quiet(s) && LockSteps(steps) && Exec(s, steps).Some? && Tidy(Exec(s, steps).value)
    ensures Advancing(more) && Exec(s, steps + more).Some?
    ensures Exec(s, steps + more).value.txs == map[]
  {
    LocksReachable(s, steps);
    more := AllFinish(Exec(s, steps).value);
    ExecJoin(s, steps, more);
  }
}

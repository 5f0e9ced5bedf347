/** Exactly which done rows can still stop being done, read off what the workers hold. */
module OutboxReopening {
  import opened Base
  import opened OutboxTable
  import opened OutboxTrail
  import opened OutboxProtocol
  import opened OutboxRefinement
  import OutboxGuarantees

  /** The worker can still come to mark its k-th held row failed: it has not got to it yet, or it has and
      neither heard every answer nor returned success. */
  predicate MayFail(ws: WorkerState, k: nat) {
    && k < |ws.held|
    && (k > 0 || ws.phase.Fetched? || ws.phase.Unsuccessful?
        || (ws.phase.Sending? && ws.phase.next < |ws.phase.targets|))
  }

  ghost predicate CanStillFail(s: State, w: WorkerId, id: RowId) {
    exists k: nat :: MayFail(StateOf(s, w), k) && StateOf(s, w).held[k].id == id
  }

  ghost predicate Settled(s: State, id: RowId) {
    && id < |s.table| && s.table[id].status == Status.Done
    && forall w: WorkerId :: !CanStillFail(s, w, id)
  }

  // ---------------------------------------------------------------- nobody can fail it: it stays done

  lemma ClaimTakesOthers(c: Config, s: State, step: Step, id: RowId)
    requires Enabled(c, s, step) && step.Claim? && id < |s.table| && s.table[id].status == Status.Done
    ensures id !in step.ids
  {
    forall k | 0 <= k < |step.ids| ensures step.ids[k] != id {
      if step.outcome.TookEffect() {
        assert Claimable(s.table, step.locked, step.ids[k]);
      }
    }
  }

  lemma RowStaysDone(c: Config, s: State, step: Step, id: RowId)
    requires Enabled(c, s, step) && Settled(s, id)
    ensures id < |Apply(c, s, step).table| && Apply(c, s, step).table[id].status == Status.Done
  {
    if step.Claim? {
      ClaimTakesOthers(c, s, step, id);
    } else if step.Fail? {
      assert MayFail(StateOf(s, step.w), 0);
      assert !CanStillFail(s, step.w, id);
    }
  }

  lemma NobodyComesToFail(c: Config, s: State, step: Step, id: RowId, w: WorkerId, k: nat)
    requires Enabled(c, s, step) && Settled(s, id) && MayFail(StateOf(Apply(c, s, step), w), k)
    ensures StateOf(Apply(c, s, step), w).held[k].id != id
  {
    var ws, ws' := StateOf(s, w), StateOf(Apply(c, s, step), w);
    assert !CanStillFail(s, w, id);
    if step.Claim? && ws' != ws {
      ClaimTakesOthers(c, s, step, id);
      assert ws'.held[k].id == step.ids[k];
    } else if (step.Done? || step.Fail?) && step.w == w {
      assert MayFail(ws, k + 1) && ws.held[k + 1] == ws'.held[k];
    } else {
      assert MayFail(ws, k) && ws.held[k] == ws'.held[k];
    }
  }

  lemma StaysSettled(c: Config, s: State, step: Step, id: RowId)
    requires Enabled(c, s, step) && Settled(s, id)
    ensures Settled(Apply(c, s, step), id)
  {
    RowStaysDone(c, s, step, id);
    forall w: WorkerId, k: nat | MayFail(StateOf(Apply(c, s, step), w), k)
      ensures StateOf(Apply(c, s, step), w).held[k].id != id
    {
      NobodyComesToFail(c, s, step, id, w, k);
    }
  }

  lemma {:induction false} SettledForGood(c: Config, steps: seq<Step>, more: seq<Step>, id: RowId)
    requires steps <= more && Exec(c, steps).Some? && Exec(c, more).Some? && Settled(Exec(c, steps).value, id)
    ensures Settled(Exec(c, more).value, id)
    decreases |more|
  {
    if steps != more {
      var before := more[..|more| - 1];
      SettledForGood(c, steps, before, id);
      StaysSettled(c, Exec(c, before).value, more[|more| - 1], id);
    }
  }

  // ---------------------------------------------------------------- somebody can: it may be reopened

  lemma HolderIsBusy(c: Config, steps: seq<Step>, s: State, w: WorkerId)
    requires At(c, steps, s) && StateOf(s, w).held != []
    ensures Busy(s, w)
  {
    Reachable(c, steps);
    assert HoldingMatches(s, w, 0);
  }

  /** The worker gets to the point of marking its first row, failing it if it still may. */
  lemma ToMark(c: Config, steps: seq<Step>, s: State, w: WorkerId) returns (more: seq<Step>, s': State)
    requires At(c, steps, s) && Busy(s, w)
    ensures steps <= more && At(c, more, s') && s'.table == s.table && StateOf(s', w).held == StateOf(s, w).held
    ensures StateOf(s', w).phase.Unsuccessful? || StateOf(s', w).phase.Succeeded?
    ensures MayFail(StateOf(s, w), 0) ==> StateOf(s', w).phase.Unsuccessful?
  {
    more, s' := steps, s;
    OutboxGuarantees.ReachableDeliveries(c, steps);
    assert OutboxGuarantees.SendingOk(c, s, w);
    if StateOf(s, w).phase.Fetched? {
      more, s' := Go(c, steps, s, Begin(w, None));
    }
    if StateOf(s', w).phase.Sending? {
      if StateOf(s', w).phase.next < |StateOf(s', w).phase.targets| {
        more, s' := Go(c, more, s', Send(w, Unheard));
      } else {
        more, s' := Go(c, more, s', Finish(w));
      }
    }
  }

  /** A worker that may fail its first row does. */
  lemma FailsFirst(c: Config, steps: seq<Step>, s: State, w: WorkerId) returns (more: seq<Step>, s': State)
    requires At(c, steps, s) && Busy(s, w) && MayFail(StateOf(s, w), 0)
    ensures steps <= more && At(c, more, s')
    ensures var id := StateOf(s, w).held[0].id; id < |s'.table| && s'.table[id].status != Status.Done
  {
    var s1;
    more, s1 := ToMark(c, steps, s, w);
    more, s' := Go(c, more, s1, Fail(w, Applied));
  }

  /** The worker's mark on its first row has no effect, and it goes on to the rest. */
  lemma PassesOver(c: Config, steps: seq<Step>, s: State, w: WorkerId) returns (more: seq<Step>, s': State)
    requires At(c, steps, s) && Busy(s, w)
    ensures steps <= more && At(c, more, s') && s'.table == s.table
    ensures StateOf(s', w).held == StateOf(s, w).held[1..] && StateOf(s', w).phase.Fetched?
  {
    var s1;
    more, s1 := ToMark(c, steps, s, w);
    more, s' := Go(c, more, s1, if StateOf(s1, w).phase.Succeeded? then Step.Done(w, NotApplied) else Fail(w, NotApplied));
  }

  /** A worker that may fail its k-th row can: the rows before go without effect, then the mark on this one. */
  lemma {:induction false} FailsKth(c: Config, steps: seq<Step>, s: State, w: WorkerId, k: nat, id: RowId)
    returns (more: seq<Step>, s': State)
    requires At(c, steps, s) && MayFail(StateOf(s, w), k) && StateOf(s, w).held[k].id == id && id < |s.table|
    ensures steps <= more && At(c, more, s') && id < |s'.table| && s'.table[id].status != Status.Done
    decreases k
  {
    HolderIsBusy(c, steps, s, w);
    if k == 0 {
      more, s' := FailsFirst(c, steps, s, w);
    } else {
      var s1;
      more, s1 := PassesOver(c, steps, s, w);
      more, s' := FailsKth(c, more, s1, w, k - 1, id);
    }
  }

  // ---------------------------------------------------------------- exactly when

  ghost predicate Reopens(c: Config, steps: seq<Step>, more: seq<Step>, id: RowId) {
    && steps <= more && Exec(c, more).Some?
    && id < |Exec(c, more).value.table| && Exec(c, more).value.table[id].status != Status.Done
  }

  /** A row that is done in some reachable state has a continuation in which it is not, if and only if some
      worker still holds it and may still come to mark it failed. */
  lemma ReopensIff(c: Config, steps: seq<Step>, id: RowId)
    requires Exec(c, steps).Some? && id < |Exec(c, steps).value.table|
    requires Exec(c, steps).value.table[id].status == Status.Done
    ensures (exists more :: Reopens(c, steps, more, id)) <==>
            (exists w: WorkerId :: CanStillFail(Exec(c, steps).value, w, id))
  {
    var s := Exec(c, steps).value;
    Reachable(c, steps);
    if w: WorkerId :| CanStillFail(s, w, id) {
      var k: nat :| MayFail(StateOf(s, w), k) && StateOf(s, w).held[k].id == id;
      var more, s' := FailsKth(c, steps, s, w, k, id);
      assert Reopens(c, steps, more, id);
    } else {
      forall more | steps <= more && Exec(c, more).Some? ensures !Reopens(c, steps, more, id) {
        SettledForGood(c, steps, more, id);
      }
    }
  }
}

/** What the outbox protocol guarantees, over every run. */
module OutboxGuarantees {
  import opened Base
  import opened OutboxTable
  import opened OutboxTrail
  import opened OutboxProtocol
  import Worker = OutboxWorker
  import Receiver

  // ---------------------------------------------------------------- without any timing assumption

  /** In every run, rows in flight have retries left, a processing row carries its claim time, and each row
      was claimed at most maxRetries times plus the number of times it was reclaimed. */
  lemma RetryBound(c: Config, steps: seq<Step>, id: RowId)
    requires c.worker.Valid() && Exec(c, steps).Some? && id < |Exec(c, steps).value.table|
    ensures var s := Exec(c, steps).value;
            && id < |s.trails|
            && HealthyRow(s.table[id], c.worker.maxRetries)
            && Claims(s.trails[id]) <= c.worker.maxRetries + Reclaims(s.trails[id])
            && s.table[id].retryCount == Fails(s.trails[id])
  {
    var s := Exec(c, steps).value;
    Reachable(c, steps);
    assert RowMatches(c.worker.maxRetries, s.table[id], s.trails[id]);
    InFlightHasRetries(s.trails[id], c.worker.maxRetries);
    ClaimsBounded(s.trails[id], c.worker.maxRetries);
  }

  lemma ClaimedWerePending(c: Config, s: State, step: Step)
    requires Enabled(c, s, step) && step.Claim?
    ensures forall id :: id in step.ids ==> Claimable(s.table, step.locked, id)
  {
    forall id | id in step.ids ensures Claimable(s.table, step.locked, id) {
      var k :| 0 <= k < |step.ids| && step.ids[k] == id;
    }
  }

  ghost predicate EventsKept(t: Table, t': Table) {
    |t| <= |t'| && forall i :: 0 <= i < |t| ==> SameEvent(t[i], t'[i]) && t[i].retryCount <= t'[i].retryCount
  }

  lemma StepKeepsEvents(c: Config, s: State, step: Step)
    requires Enabled(c, s, step)
    ensures EventsKept(s.table, Apply(c, s, step).table)
  {
  }

  /** Nothing is lost: every row of an earlier state is still there later, the same event. */
  lemma {:induction false} NothingLost(c: Config, steps: seq<Step>, n: nat)
    requires Exec(c, steps).Some? && n <= |steps|
    ensures Exec(c, steps[..n]).Some? && EventsKept(Exec(c, steps[..n]).value.table, Exec(c, steps).value.table)
  {
    if n == |steps| {
      assert steps[..n] == steps;
    } else {
      var before := steps[..|steps| - 1];
      assert before[..n] == steps[..n];
      NothingLost(c, before, n);
      StepKeepsEvents(c, Exec(c, before).value, steps[|steps| - 1]);
    }
  }

  /** Rows stand in the order they were enqueued in, none of them in the future. */
  ghost predicate InOrder(s: State) {
    && (forall i, j :: 0 <= i <= j < |s.table| ==> s.table[i].createdAt <= s.table[j].createdAt)
    && (forall i :: 0 <= i < |s.table| ==> s.table[i].createdAt <= s.now)
  }

  lemma StepKeepsOrder(c: Config, s: State, step: Step)
    requires Enabled(c, s, step) && InOrder(s)
    ensures InOrder(Apply(c, s, step))
  {
    var s' := Apply(c, s, step);
    StepKeepsEvents(c, s, step);
    assert forall i :: 0 <= i < |s.table| ==> SameEvent(s.table[i], s'.table[i]);
    if step.Enqueue? {
      assert forall i :: |s.table| <= i < |s'.table| ==> i == |s.table| && s'.table[i].createdAt == s.now;
    } else {
      assert |s'.table| == |s.table|;
    }
  }

  lemma {:induction false} AlwaysInOrder(c: Config, steps: seq<Step>)
    requires Exec(c, steps).Some?
    ensures InOrder(Exec(c, steps).value)
  {
    if steps != [] {
      var before := steps[..|steps| - 1];
      AlwaysInOrder(c, before);
      StepKeepsOrder(c, Exec(c, before).value, steps[|steps| - 1]);
    }
  }

  /** First come, first served: in every reachable table a claim passes over a free pending row only for rows
      enqueued before it or at the very same instant, and only when it takes as many as it may. */
  lemma FirstComeFirstServed(c: Config, steps: seq<Step>, limit: nat, locked: set<RowId>, ids: seq<RowId>, x: RowId, y: RowId)
    requires Exec(c, steps).Some? && MayClaim(Exec(c, steps).value.table, limit, locked, ids) && x in ids
    requires Claimable(Exec(c, steps).value.table, locked, y) && y !in ids
    ensures var t := Exec(c, steps).value.table;
            |ids| == limit && x < |t| && (x < y || t[x].createdAt == t[y].createdAt)
  {
    AlwaysInOrder(c, steps);
    var k :| 0 <= k < |ids| && ids[k] == x;
    assert Claimable(Exec(c, steps).value.table, locked, ids[k]);
  }

  /** A row whose count has reached maxRetries is claimed by no later step of any run, and its trail shows none. */
  lemma ExhaustedIsNeverClaimed(c: Config, steps: seq<Step>, n: nat, id: RowId)
    requires c.worker.Valid() && Exec(c, steps).Some? && n <= |steps| && Exec(c, steps[..n]).Some?
    requires id < |Exec(c, steps[..n]).value.table|
    requires Exec(c, steps[..n]).value.table[id].retryCount >= c.worker.maxRetries
    ensures forall m :: n <= m < |steps| && steps[m].Claim? ==> id !in steps[m].ids
    ensures var s, s' := Exec(c, steps[..n]).value, Exec(c, steps).value;
            && id < |s.trails| && id < |s'.trails|
            && forall k :: |s.trails[id]| <= k < |s'.trails[id]| ==> !s'.trails[id][k].ClaimEvent?
  {
    forall m | n <= m < |steps| && steps[m].Claim? ensures id !in steps[m].ids {
      NotClaimedAt(c, steps, n, m, id);
    }
    var s, s' := Exec(c, steps[..n]).value, Exec(c, steps).value;
    var max := c.worker.maxRetries;
    RetryBound(c, steps[..n], id);
    TrailsGrow(c, steps, n, id);
    Reachable(c, steps);
    assert RowMatches(max, s'.table[id], s'.trails[id]);
    forall k | |s.trails[id]| <= k < |s'.trails[id]| ensures !s'.trails[id][k].ClaimEvent? {
      assert s'.trails[id][..|s.trails[id]|] == s.trails[id];
      NeverClaimedAfterExhaustion(s'.trails[id], max, |s.trails[id]|, k);
    }
  }

  lemma {:induction false} StepWasEnabled(c: Config, steps: seq<Step>, m: nat)
    requires Exec(c, steps).Some? && m < |steps|
    ensures Exec(c, steps[..m]).Some? && Enabled(c, Exec(c, steps[..m]).value, steps[m])
  {
    if m < |steps| - 1 {
      var before := steps[..|steps| - 1];
      StepWasEnabled(c, before, m);
      assert before[..m] == steps[..m];
    }
  }

  lemma NotClaimedAt(c: Config, steps: seq<Step>, n: nat, m: nat, id: RowId)
    requires c.worker.Valid() && Exec(c, steps).Some? && n <= m < |steps| && Exec(c, steps[..n]).Some?
    requires steps[m].Claim? && id < |Exec(c, steps[..n]).value.table|
    requires Exec(c, steps[..n]).value.table[id].retryCount >= c.worker.maxRetries
    ensures id !in steps[m].ids
  {
    StepWasEnabled(c, steps, m);
    var before := steps[..m];
    assert before[..n] == steps[..n];
    NothingLost(c, before, n);
    RetryBound(c, before, id);
    ClaimedWerePending(c, Exec(c, before).value, steps[m]);
  }

  /** No processing row is stuck: once the clock passes its claim time by more than the threshold, a reap
      puts it back to pending without spending a retry. */
  lemma ProcessingIsReclaimable(c: Config, steps: seq<Step>, id: RowId, elapsed: nat)
    requires Exec(c, steps).Some?
    requires id < |Exec(c, steps).value.table| && Exec(c, steps).value.table[id].status == Processing
    ensures var s := Exec(c, steps).value;
            && s.table[id].claimedAt.Some?
            && (s.now + elapsed > s.table[id].claimedAt.value + c.worker.staleThreshold ==>
                  var r := Exec(c, steps + [Advance(elapsed), Reap]);
                  && r.Some? && id < |r.value.table| && r.value.table[id].status == Pending
                  && r.value.table[id].retryCount == s.table[id].retryCount)
  {
    var s := Exec(c, steps).value;
    Reachable(c, steps);
    assert RowMatches(c.worker.maxRetries, s.table[id], s.trails[id]);
    TwoMore(c, steps, Advance(elapsed), Reap);
  }

  lemma TwoMore(c: Config, steps: seq<Step>, a: Step, b: Step)
    requires Exec(c, steps).Some? && Enabled(c, Exec(c, steps).value, a)
    requires Enabled(c, Apply(c, Exec(c, steps).value, a), b)
    ensures Exec(c, steps + [a, b]) == Some(Apply(c, Apply(c, Exec(c, steps).value, a), b))
  {
    Then(c, steps, a);
    Then(c, steps + [a], b);
    assert steps + [a] + [b] == steps + [a, b];
  }

  lemma Then(c: Config, steps: seq<Step>, step: Step)
    ensures Exec(c, steps + [step]) ==
              if Exec(c, steps).Some? && Enabled(c, Exec(c, steps).value, step)
              then Some(Apply(c, Exec(c, steps).value, step)) else None
  {
    assert (steps + [step])[..|steps|] == steps;
  }

  /** Two claims of one row are separated by a retry or a reclaim of it, and every done mark was preceded
      by a delivery that returned success to the worker that made the mark. */
  lemma NothingFalselyDone(c: Config, steps: seq<Step>, id: RowId, i: nat, j: nat)
    requires Exec(c, steps).Some? && id < |Exec(c, steps).value.trails|
    requires i < j < |Exec(c, steps).value.trails[id]|
    ensures var trail := Exec(c, steps).value.trails[id];
            && (trail[i].ClaimEvent? && trail[j].ClaimEvent? ==>
                  exists k :: i < k < j && ReturnsToPending(trail[k]))
            && (trail[j].DoneMark? ==> exists k :: 0 <= k < j && trail[k].Delivered? && trail[k].w == trail[j].w)
  {
    var s := Exec(c, steps).value;
    Reachable(c, steps);
    assert RowMatches(c.worker.maxRetries, s.table[id], s.trails[id]);
    if s.trails[id][i].ClaimEvent? && s.trails[id][j].ClaimEvent? {
      ClaimsSeparated(s.trails[id], c.worker.maxRetries, i, j);
    }
    if s.trails[id][j].DoneMark? {
      DoneWasDelivered(s.trails[id], c.worker.maxRetries, j);
    }
  }

  /** Every row that is done was delivered with success, and then marked, by one worker. */
  lemma DoneRowWasDelivered(c: Config, steps: seq<Step>, id: RowId)
    requires Exec(c, steps).Some? && id < |Exec(c, steps).value.table|
    requires Exec(c, steps).value.table[id].status == Status.Done
    ensures var s := Exec(c, steps).value;
            id < |s.trails| &&
            exists i, j :: 0 <= i < j < |s.trails[id]|
              && s.trails[id][j].DoneMark? && s.trails[id][i].Delivered? && s.trails[id][i].w == s.trails[id][j].w
  {
    var s := Exec(c, steps).value;
    Reachable(c, steps);
    assert RowMatches(c.worker.maxRetries, s.table[id], s.trails[id]);
    DoneHasMark(s.trails[id], c.worker.maxRetries);
    var j :| 0 <= j < |s.trails[id]| && s.trails[id][j].DoneMark?;
    DoneWasDelivered(s.trails[id], c.worker.maxRetries, j);
  }

  // ---------------------------------------------------------------- exactly when a row is reported dead again

  /** In every run a row's stored retry count tells how often it was marked dead: at most once if and only
      if it never passed maxRetries. What was reported is that less the marks whose answer was lost. */
  lemma DeadCount(c: Config, steps: seq<Step>, id: RowId)
    requires c.worker.Valid() && Exec(c, steps).Some? && id < |Exec(c, steps).value.table|
    ensures var s, max := Exec(c, steps).value, c.worker.maxRetries;
            && id < |s.trails|
            && var retries, trail := s.table[id].retryCount, s.trails[id];
               && DeadMarks(trail) == (if retries >= max then retries - max + 1 else 0)
               && DeadReports(trail) == DeadMarks(trail) - UnheardDeadMarks(trail)
               && (DeadMarks(trail) <= 1 <==> retries <= max)
               && (DeadReports(trail) <= 1 <==> retries <= max + UnheardDeadMarks(trail))
  {
    RetryBound(c, steps, id);
    Reachable(c, steps);
    var s := Exec(c, steps).value;
    assert RowMatches(c.worker.maxRetries, s.table[id], s.trails[id]);
    DeadMarksExactly(s.trails[id], c.worker.maxRetries);
    DeadReportsExactly(s.trails[id]);
  }

  /** The mark that repeats a death is the one that finds the count at maxRetries already. */
  lemma RepeatedDeathIff(c: Config, steps: seq<Step>, w: WorkerId, outcome: DbOutcome)
    requires c.worker.Valid() && Exec(c, steps).Some? && Enabled(c, Exec(c, steps).value, Fail(w, outcome))
    requires outcome.TookEffect()
    ensures var s := Exec(c, steps).value;
            var s', id := Apply(c, s, Fail(w, outcome)), Head(s, w);
            && |s.trails| == |s'.trails| == |s.table|
            && (DeadMarks(s.trails[id]) > 0 && DeadMarks(s'.trails[id]) > DeadMarks(s.trails[id]) <==>
                  s.table[id].retryCount >= c.worker.maxRetries)
  {
    var s := Exec(c, steps).value;
    var id := Head(s, w);
    DeadCount(c, steps, id);
    Then(c, steps, Fail(w, outcome));
    DeadCount(c, steps + [Fail(w, outcome)], id);
    Reachable(c, steps + [Fail(w, outcome)]);
  }

  // ---------------------------------------------------------------- end to end

  ghost predicate AllActed(s: State, targets: seq<Target>, n: nat, id: RowId) {
    n <= |targets| && forall k :: 0 <= k < n && targets[k].Webhook? ==> id in Acted(s, targets[k].endpoint)
  }

  /** A tenant's event is fanned out to webhooks and nothing else. */
  ghost predicate TargetsFit(c: Config, r: Row, targets: seq<Target>) {
    Worker.RouteOf(r, c.worker.webhooksWired).ToTenant? ==> forall k :: 0 <= k < |targets| ==> targets[k].Webhook?
  }

  ghost predicate SendingOk(c: Config, s: State, w: WorkerId) {
    var ws := StateOf(s, w);
    ws.held != [] && ws.phase.Sending? ==>
      && ws.held[0].id < |s.table|
      && AllActed(s, ws.phase.targets, ws.phase.next, ws.held[0].id)
      && TargetsFit(c, s.table[ws.held[0].id], ws.phase.targets)
  }

  ghost predicate DeliveredOk(c: Config, s: State, id: RowId, e: RowEvent)
    requires id < |s.table|
  {
    e.Delivered? ==> AllActed(s, e.targets, |e.targets|, id) && TargetsFit(c, s.table[id], e.targets)
  }

  ghost predicate DeliveriesOk(c: Config, s: State) {
    && |s.trails| == |s.table|
    && (forall w: WorkerId :: SendingOk(c, s, w))
    && (forall id: RowId, j :: id < |s.trails| && 0 <= j < |s.trails[id]| ==> DeliveredOk(c, s, id, s.trails[id][j]))
    && (forall e: string :: Receiver.Spaced(c.dedup(e), Acted(s, e)))
  }

  lemma ActedGrows(c: Config, s: State, step: Step, e: string)
    requires Enabled(c, s, step) && Receiver.Spaced(c.dedup(e), Acted(s, e))
    ensures Acted(s, e) <= Acted(Apply(c, s, step), e)
    ensures Receiver.Spaced(c.dedup(e), Acted(Apply(c, s, step), e))
  {
    if step.Send? {
      Receiver.PresentKeepsSpaced(c.dedup(e), Acted(s, e), Head(s, step.w));
    }
  }

  lemma ActedStays(s: State, s': State, targets: seq<Target>, n: nat, id: RowId)
    requires forall e: string :: Acted(s, e) <= Acted(s', e)
    requires AllActed(s, targets, n, id)
    ensures AllActed(s', targets, n, id)
  {
    forall k | 0 <= k < n && targets[k].Webhook? ensures id in Acted(s', targets[k].endpoint) {
      var e := targets[k].endpoint;
      var i :| 0 <= i < |Acted(s, e)| && Acted(s, e)[i] == id;
      assert Acted(s', e)[i] == id;
    }
  }

  lemma OwnSendKeepsSending(c: Config, s: State, step: Step)
    requires step.Send? && SendingOk(c, s, step.w) && Enabled(c, s, step)
    requires forall e: string :: Acted(s, e) <= Acted(Apply(c, s, step), e)
    ensures SendingOk(c, Apply(c, s, step), step.w)
  {
    var s' := Apply(c, s, step);
    var ws := StateOf(s, step.w);
    var id := ws.held[0].id;
    ActedStays(s, s', ws.phase.targets, ws.phase.next, id);
    if step.answer.Heard? && ws.phase.targets[ws.phase.next].Webhook? {
      assert id in Acted(s', ws.phase.targets[ws.phase.next].endpoint);
    }
  }

  lemma StepKeepsSending(c: Config, s: State, step: Step, w: WorkerId)
    requires DeliveriesOk(c, s) && WorkersMatch(s) && Enabled(c, s, step)
    requires forall e: string :: Acted(s, e) <= Acted(Apply(c, s, step), e)
    ensures SendingOk(c, Apply(c, s, step), w)
  {
    var s' := Apply(c, s, step);
    var ws, ws' := StateOf(s, w), StateOf(s', w);
    StepKeepsEvents(c, s, step);
    assert SendingOk(c, s, w);
    if step.Begin? && step.w == w {
      assert ws'.phase.Sending? ==> AllActed(s', ws'.phase.targets, 0, ws'.held[0].id);
    } else if step.Send? && step.w == w {
      OwnSendKeepsSending(c, s, step);
    } else if ws'.held != [] && ws'.phase.Sending? {
      var id := ws.held[0].id;
      ActedStays(s, s', ws.phase.targets, ws.phase.next, id);
      assert SameEvent(s.table[id], s'.table[id]);
    }
  }

  lemma StepKeepsDelivered(c: Config, s: State, step: Step, id: RowId, j: nat)
    requires DeliveriesOk(c, s) && Enabled(c, s, step)
    requires forall e: string :: Acted(s, e) <= Acted(Apply(c, s, step), e)
    requires id < |Apply(c, s, step).trails| && j < |Apply(c, s, step).trails[id]|
    requires |Apply(c, s, step).trails| == |Apply(c, s, step).table|
    ensures DeliveredOk(c, Apply(c, s, step), id, Apply(c, s, step).trails[id][j])
  {
    var s' := Apply(c, s, step);
    var e := s'.trails[id][j];
    StepKeepsEvents(c, s, step);
    if e.Delivered? {
      if id < |s.trails| && j < |s.trails[id]| {
        assert s.trails[id][j] == e && DeliveredOk(c, s, id, e);
        ActedStays(s, s', e.targets, |e.targets|, id);
      } else {
        assert step.Finish? && SendingOk(c, s, step.w);
        ActedStays(s, s', e.targets, |e.targets|, id);
      }
      assert SameEvent(s.table[id], s'.table[id]);
    }
  }

  lemma {:induction false} ReachableDeliveries(c: Config, steps: seq<Step>)
    requires Exec(c, steps).Some?
    ensures DeliveriesOk(c, Exec(c, steps).value)
  {
    if steps != [] {
      var before, step := steps[..|steps| - 1], steps[|steps| - 1];
      var s, s' := Exec(c, before).value, Exec(c, steps).value;
      ReachableDeliveries(c, before);
      Reachable(c, before);
      Reachable(c, steps);
      forall e: string ensures Acted(s, e) <= Acted(s', e) && Receiver.Spaced(c.dedup(e), Acted(s', e)) {
        ActedGrows(c, s, step, e);
      }
      forall w: WorkerId ensures SendingOk(c, s', w) {
        StepKeepsSending(c, s, step, w);
      }
      forall id: RowId, j | id < |s'.trails| && 0 <= j < |s'.trails[id]|
        ensures DeliveredOk(c, s', id, s'.trails[id][j])
      {
        StepKeepsDelivered(c, s, step, id, j);
      }
    }
  }

  lemma ContentIsNotUser(eventType: string)
    requires Worker.IsContentEvent(eventType)
    ensures !Worker.IsUserEvent(eventType)
  {
    assert eventType[0] == eventType[..8][0] == 'c';
  }

  /** The delivery id endpoint e's receiver handles at this step, if it handles one. */
  function HandledBy(s: State, step: Step, e: string): Option<RowId> {
    if step.Send? && !step.answer.Unheard? && Busy(s, step.w) && StateOf(s, step.w).phase.Sending?
       && StateOf(s, step.w).phase.next < |StateOf(s, step.w).phase.targets|
       && StateOf(s, step.w).phase.targets[StateOf(s, step.w).phase.next] == Webhook(e)
    then Some(Head(s, step.w)) else None
  }

  lemma ActedStep(c: Config, s: State, step: Step, e: string)
    requires Enabled(c, s, step)
    ensures Acted(Apply(c, s, step), e) ==
              match HandledBy(s, step, e)
              case None => Acted(s, e)
              case Some(id) => Receiver.Present(c.dedup(e), Acted(s, e), id)
  {
  }

  /** Whenever e's receiver handled `id` again after acting on it, fewer than its log's limit of deliveries
      had been accepted since: `id` was still among the last it remembers. */
  ghost predicate RepeatsRemembered(c: Config, steps: seq<Step>, e: string, id: RowId) {
    forall n :: 0 <= n < |steps| ==> RepeatRememberedAt(c, steps[..n], steps[n], e, id)
  }

  ghost predicate RepeatRememberedAt(c: Config, before: seq<Step>, step: Step, e: string, id: RowId) {
    Exec(c, before).Some? && HandledBy(Exec(c, before).value, step, e) == Some(id)
    && id in Acted(Exec(c, before).value, e) ==>
      id in Receiver.Recent(c.dedup(e), Acted(Exec(c, before).value, e))
  }

  lemma RepeatsSplit(c: Config, before: seq<Step>, step: Step, e: string, id: RowId)
    ensures RepeatsRemembered(c, before + [step], e, id) <==>
              RepeatsRemembered(c, before, e, id) && RepeatRememberedAt(c, before, step, e, id)
  {
    var steps := before + [step];
    forall n | 0 <= n < |before| ensures steps[..n] == before[..n] && steps[n] == before[n] {
    }
    assert steps[..|before|] == before && steps[|before|] == step;
    if RepeatsRemembered(c, steps, e, id) {
      forall n | 0 <= n < |before| ensures RepeatRememberedAt(c, before[..n], before[n], e, id) {
        assert RepeatRememberedAt(c, steps[..n], steps[n], e, id);
      }
      assert RepeatRememberedAt(c, steps[..|before|], steps[|before|], e, id);
    } else {
      var n :| 0 <= n < |steps| && !RepeatRememberedAt(c, steps[..n], steps[n], e, id);
      assert n < |before| ==> !RepeatRememberedAt(c, before[..n], before[n], e, id);
    }
  }

  /** A step adds an action on `id` exactly when it presents a repeat the receiver has forgotten, or its first. */
  lemma StepActs(c: Config, s: State, step: Step, e: string, id: RowId)
    requires Enabled(c, s, step)
    ensures var limit, acted := c.dedup(e), Acted(s, e);
            && Count(Acted(Apply(c, s, step), e), id) ==
                 Count(acted, id) + (if HandledBy(s, step, e) == Some(id) && id !in Receiver.Recent(limit, acted) then 1 else 0)
            && (Count(acted, id) > 0 <==> id in acted)
            && (id in Receiver.Recent(limit, acted) ==> id in acted)
  {
    ActedStep(c, s, step, e);
    var presented := HandledBy(s, step, e);
    Receiver.PresentCounts(c.dedup(e), Acted(s, e), if presented.Some? then presented.value else id, id);
    CountPositive(Acted(s, e), id);
  }

  /** Over every run, an endpoint acts on a delivery at most once exactly when its repeats are remembered,
      however many other deliveries it accepts otherwise. */
  lemma {:induction false} ActsOnceIff(c: Config, steps: seq<Step>, e: string, id: RowId)
    requires Exec(c, steps).Some?
    ensures Count(Acted(Exec(c, steps).value, e), id) <= 1 <==> RepeatsRemembered(c, steps, e, id)
  {
    if steps != [] {
      var before, step := steps[..|steps| - 1], steps[|steps| - 1];
      assert steps == before + [step];
      ActsOnceIff(c, before, e, id);
      RepeatsSplit(c, before, step, e, id);
      StepActs(c, Exec(c, before).value, step, e, id);
    }
  }

  /** End to end, lost acknowledgements included: a content row that is done was delivered with success and
      then marked by one worker, and at every successful delivery of it every listed endpoint acted on it at
      least once, and exactly once if and only if that endpoint's receiver still remembered the row whenever
      it was delivered again. */
  lemma EndToEnd(c: Config, steps: seq<Step>, id: RowId)
    requires Exec(c, steps).Some?
    requires id < |Exec(c, steps).value.table| && id < |Exec(c, steps).value.trails|
    requires Exec(c, steps).value.table[id].status == Status.Done
    requires Worker.RouteOf(Exec(c, steps).value.table[id], c.worker.webhooksWired).ToTenant?
    ensures var trail := Exec(c, steps).value.trails[id];
            && (exists i, j :: 0 <= i < j < |trail| && trail[j].DoneMark? && trail[i].Delivered? && trail[i].w == trail[j].w)
            && (forall i, k :: 0 <= i < |trail| && trail[i].Delivered? && 0 <= k < |trail[i].targets| ==>
                  ActedOn(c, steps, trail[i].targets[k], id))
  {
    var s := Exec(c, steps).value;
    var trail := s.trails[id];
    DoneRowWasDelivered(c, steps, id);
    ReachableDeliveries(c, steps);
    forall i, k | 0 <= i < |trail| && trail[i].Delivered? && 0 <= k < |trail[i].targets|
      ensures ActedOn(c, steps, trail[i].targets[k], id)
    {
      assert DeliveredOk(c, s, id, trail[i]);
      CountPositive(Acted(s, trail[i].targets[k].endpoint), id);
      ActsOnceIff(c, steps, trail[i].targets[k].endpoint, id);
    }
  }

  /** The target is an endpoint that acted on the row, once exactly when its repeats were remembered. */
  ghost predicate ActedOn(c: Config, steps: seq<Step>, t: Target, id: RowId)
    requires Exec(c, steps).Some?
  {
    && t.Webhook?
    && var acts := Count(Acted(Exec(c, steps).value, t.endpoint), id);
       acts >= 1 && (acts == 1 <==> RepeatsRemembered(c, steps, t.endpoint, id))
  }

  // ---------------------------------------------------------------- under leases

  /** No live worker still holds a row past its claim time plus the stale threshold. */
  ghost predicate LeaseKept(c: Config, s: State) {
    forall w: WorkerId, k: nat :: k < |StateOf(s, w).held| ==>
      s.now <= StateOf(s, w).held[k].at + c.worker.staleThreshold
  }

  ghost predicate LeaseRun(c: Config, steps: seq<Step>) {
    Exec(c, steps).Some? && LeaseKept(c, Exec(c, steps).value) && (steps == [] || LeaseRun(c, steps[..|steps| - 1]))
  }

  /** Worker w's k-th held row is the row it claimed, still processing under that very claim. */
  predicate HoldsClaim(s: State, w: WorkerId, k: nat)
    requires k < |StateOf(s, w).held|
  {
    var h := StateOf(s, w).held[k];
    h.id < |s.table| && s.table[h.id].status == Processing && s.table[h.id].claimedAt == Some(h.at)
  }

  ghost predicate HeldByOne(s: State) {
    forall w1: WorkerId, w2: WorkerId, i: nat, j: nat ::
      w1 != w2 && i < |StateOf(s, w1).held| && j < |StateOf(s, w2).held| ==>
        StateOf(s, w1).held[i].id != StateOf(s, w2).held[j].id
  }

  ghost predicate Exclusive(c: Config, s: State) {
    && (forall w: WorkerId, k: nat :: k < |StateOf(s, w).held| ==> HoldsClaim(s, w, k))
    && HeldByOne(s)
    && (forall id: RowId :: id < |s.trails| ==> Guarded(s.trails[id], c.worker.maxRetries))
  }

  /** A mark touches only the row its worker held first, which nobody else holds. */
  lemma MarkKeepsClaims(c: Config, s: State, step: Step, w: WorkerId, k: nat)
    requires Matches(c, s) && WorkersMatch(s) && Exclusive(c, s) && Enabled(c, s, step) && (step.Done? || step.Fail?)
    requires k < |StateOf(Apply(c, s, step), w).held|
    ensures HoldsClaim(Apply(c, s, step), w, k)
  {
    var ws, ws' := StateOf(s, w), StateOf(Apply(c, s, step), w);
    var m := if step.w == w then k + 1 else k;
    assert ws'.held[k] == ws.held[m];
    assert HoldsClaim(s, w, m) && HoldsClaim(s, step.w, 0);
    assert Head(s, step.w) != ws.held[m].id;
  }

  lemma StepKeepsClaims(c: Config, s: State, step: Step, w: WorkerId, k: nat)
    requires Matches(c, s) && WorkersMatch(s) && Exclusive(c, s) && LeaseKept(c, s) && Enabled(c, s, step)
    requires k < |StateOf(Apply(c, s, step), w).held|
    ensures HoldsClaim(Apply(c, s, step), w, k)
  {
    var s' := Apply(c, s, step);
    var ws, ws' := StateOf(s, w), StateOf(s', w);
    if step.Done? || step.Fail? {
      MarkKeepsClaims(c, s, step, w, k);
    } else {
      if step.Claim? {
        ClaimedWerePending(c, s, step);
      }
      if !(step.Claim? && step.w == w && step.outcome.Reported()) {
        assert ws'.held[k] == ws.held[k];
        assert HoldsClaim(s, w, k);
      }
    }
  }

  lemma StepKeepsHeldByOne(c: Config, s: State, step: Step)
    requires Matches(c, s) && WorkersMatch(s) && Exclusive(c, s) && Enabled(c, s, step)
    ensures HeldByOne(Apply(c, s, step))
  {
    var s' := Apply(c, s, step);
    forall w1: WorkerId, w2: WorkerId, i: nat, j: nat |
      w1 != w2 && i < |StateOf(s', w1).held| && j < |StateOf(s', w2).held|
      ensures StateOf(s', w1).held[i].id != StateOf(s', w2).held[j].id
    {
      var p1, i' := Origin(c, s, step, w1, i);
      var p2, j' := Origin(c, s, step, w2, j);
    }
  }

  /** Where a held row comes from: it was held before the step, or it was pending and is newly claimed. */
  lemma Origin(c: Config, s: State, step: Step, w: WorkerId, k: nat) returns (wasHeld: bool, k': nat)
    requires Matches(c, s) && Exclusive(c, s) && Enabled(c, s, step)
    requires k < |StateOf(Apply(c, s, step), w).held|
    ensures var h := StateOf(Apply(c, s, step), w).held[k];
            if wasHeld then
              k' < |StateOf(s, w).held| && StateOf(s, w).held[k'] == h &&
              h.id < |s.table| && s.table[h.id].status == Processing
            else step.Claim? && step.w == w && h.id < |s.table| && s.table[h.id].status == Pending
  {
    if step.Claim? && step.w == w && step.outcome.Reported() {
      assert Claimable(s.table, step.locked, step.ids[k]);
      return false, 0;
    } else {
      k' := if (step.Done? || step.Fail?) && step.w == w then k + 1 else k;
      assert HoldsClaim(s, w, k');
      return true, k';
    }
  }

  lemma StepKeepsGuarded(c: Config, s: State, step: Step, id: RowId)
    requires Matches(c, s) && Exclusive(c, s) && Enabled(c, s, step) && id < |Apply(c, s, step).trails|
    ensures Guarded(Apply(c, s, step).trails[id], c.worker.maxRetries)
  {
    var s' := Apply(c, s, step);
    if id < |s.trails| && s'.trails[id] != s.trails[id] {
      var e := s'.trails[id][|s.trails[id]|];
      assert s'.trails[id] == s.trails[id] + [e];
      assert s'.trails[id][..|s.trails[id]|] == s.trails[id];
      if e.DoneMark? || e.FailMark? {
        assert HoldsClaim(s, step.w, 0);
        assert RowMatches(c.worker.maxRetries, s.table[id], s.trails[id]);
      }
    }
  }

  lemma {:induction false} LeaseKeepsExclusive(c: Config, steps: seq<Step>)
    requires LeaseRun(c, steps)
    ensures Exclusive(c, Exec(c, steps).value)
  {
    if steps != [] {
      var before, step := steps[..|steps| - 1], steps[|steps| - 1];
      var s, s' := Exec(c, before).value, Exec(c, steps).value;
      LeaseKeepsExclusive(c, before);
      Reachable(c, before);
      forall w: WorkerId, k: nat | k < |StateOf(s', w).held| ensures HoldsClaim(s', w, k) {
        StepKeepsClaims(c, s, step, w, k);
      }
      StepKeepsHeldByOne(c, s, step);
      forall id: RowId | id < |s'.trails| ensures Guarded(s'.trails[id], c.worker.maxRetries) {
        StepKeepsGuarded(c, s, step, id);
      }
    }
  }

  /** The lease theorem: if no live worker outstays its lease, no row is ever held by two workers, done and
      failed are final, and each row is reported dead at most once. */
  lemma LeaseTheorem(c: Config, steps: seq<Step>, n: nat, id: RowId)
    requires LeaseRun(c, steps) && n <= |steps|
    requires Exec(c, steps[..n]).Some? && id < |Exec(c, steps[..n]).value.table|
    ensures var s, s' := Exec(c, steps[..n]).value, Exec(c, steps).value;
            && HeldByOne(s')
            && id < |s'.table| && id < |s'.trails|
            && (s.table[id].status.Terminal() ==> s'.table[id].status == s.table[id].status)
            && TerminalMarks(s'.trails[id]) <= 1
            && DeadReports(s'.trails[id]) <= 1
  {
    var s, s' := Exec(c, steps[..n]).value, Exec(c, steps).value;
    LeaseKeepsExclusive(c, steps);
    Reachable(c, steps);
    Reachable(c, steps[..n]);
    NothingLost(c, steps, n);
    TrailsGrow(c, steps, n, id);
    var max, m := c.worker.maxRetries, |s.trails[id]|;
    assert RowMatches(max, s.table[id], s.trails[id]) && RowMatches(max, s'.table[id], s'.trails[id]);
    assert s'.trails[id][..m] == s.trails[id];
    GuardedIsFinal(s'.trails[id], max, m);
    ReportsAreTerminal(s'.trails[id]);
  }

  lemma {:induction false} TrailsGrow(c: Config, steps: seq<Step>, n: nat, id: RowId)
    requires Exec(c, steps).Some? && n <= |steps|
    requires Exec(c, steps[..n]).Some? && id < |Exec(c, steps[..n]).value.trails|
    ensures var s, s' := Exec(c, steps[..n]).value, Exec(c, steps).value;
            id < |s'.trails| && s.trails[id] <= s'.trails[id]
  {
    if n == |steps| {
      assert steps[..n] == steps;
    } else {
      var before := steps[..|steps| - 1];
      assert before[..n] == steps[..n];
      TrailsGrow(c, before, n, id);
      StepGrowsTrail(c, Exec(c, before).value, steps[|steps| - 1], id);
    }
  }

  lemma StepGrowsTrail(c: Config, s: State, step: Step, id: RowId)
    requires Enabled(c, s, step) && id < |s.trails|
    ensures id < |Apply(c, s, step).trails| && s.trails[id] <= Apply(c, s, step).trails[id]
  {
  }
}

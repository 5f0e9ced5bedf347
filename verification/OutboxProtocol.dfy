/** Any number of workers, a reaper and a clock over one outbox table, with crashes, failed marks and
    lost acknowledgements. Every statement is one atomic step. */
module OutboxProtocol {
  import opened Base
  import opened OutboxTable
  import opened OutboxTrail
  import Worker = OutboxWorker
  import Receiver

  datatype Held = Held(id: RowId, at: int)

  /** Progress on the first held row. */
  datatype Phase =
    | Fetched
    | Sending(targets: seq<Target>, next: nat)
    | Succeeded(targets: seq<Target>)
    | Unsuccessful

  datatype WorkerState = WorkerState(held: seq<Held>, phase: Phase)

  const IDLE := WorkerState([], Fetched)

  /** dedup gives each receiver's log limit. */
  datatype Config = Config(worker: Worker.Config, dedup: string -> nat)

  datatype State = State(
    table: Table,
    now: int,
    workers: map<WorkerId, WorkerState>,
    acted: map<string, seq<RowId>>,   // per endpoint, the delivery ids its receiver acted on, in order
    trails: seq<Trail>)               // per row, what happened to it

  datatype Step =
    | Enqueue(eventType: string, payload: Payload, key: string)
    | Advance(elapsed: nat)
    | Claim(w: WorkerId, ids: seq<RowId>, locked: set<RowId>, outcome: DbOutcome)
    | Begin(w: WorkerId, listed: Option<seq<string>>)
    | Send(w: WorkerId, answer: SendOutcome)
    | Finish(w: WorkerId)
    | Done(w: WorkerId, outcome: DbOutcome)
    | Fail(w: WorkerId, outcome: DbOutcome)
    | Crash(w: WorkerId)
    | Reap

  function StateOf(s: State, w: WorkerId): WorkerState {
    if w in s.workers then s.workers[w] else IDLE
  }

  function Acted(s: State, endpoint: string): seq<RowId> {
    if endpoint in s.acted then s.acted[endpoint] else []
  }

  predicate Busy(s: State, w: WorkerId) {
    StateOf(s, w).held != [] && StateOf(s, w).held[0].id < |s.table| && |s.trails| == |s.table|
  }

  function Head(s: State, w: WorkerId): RowId
    requires Busy(s, w)
    ensures Head(s, w) < |s.table|
  {
    StateOf(s, w).held[0].id
  }

  function Drop(ws: WorkerState): WorkerState
    requires ws.held != []
  {
    WorkerState(ws.held[1..], Fetched)
  }

  function Targets(route: Worker.Route, listed: Option<seq<string>>): Option<seq<Target>> {
    match route
    case NoRoute => None
    case ToMcp => Some([Mcp])
    case ToTenant(_) =>
      if listed.Some? then Some(seq(|listed.value|, i requires 0 <= i < |listed.value| => Webhook(listed.value[i])))
      else None
  }

  /** What a claim beside other commits may return: pending rows nobody holds, not necessarily the oldest
      nor as many as there are, since rows can change between its snapshot and its locks. */
  ghost predicate MayTake(t: Table, limit: nat, locked: set<RowId>, ids: seq<RowId>) {
    |ids| <= limit && Distinct(ids) && forall i :: 0 <= i < |ids| ==> Claimable(t, locked, ids[i])
  }

  ghost predicate Enabled(c: Config, s: State, step: Step) {
    match step
    case Enqueue(_, _, _) => true
    case Advance(_) => true
    case Claim(w, ids, locked, outcome) =>
      StateOf(s, w).held == [] &&
      (if outcome.TookEffect() then MayTake(s.table, c.worker.limit, locked, ids) else ids == [])
    case Begin(w, _) => Busy(s, w) && StateOf(s, w).phase.Fetched?
    case Send(w, _) =>
      Busy(s, w) && StateOf(s, w).phase.Sending? && StateOf(s, w).phase.next < |StateOf(s, w).phase.targets|
    case Finish(w) =>
      Busy(s, w) && StateOf(s, w).phase.Sending? && StateOf(s, w).phase.next == |StateOf(s, w).phase.targets|
    case Done(w, _) => Busy(s, w) && StateOf(s, w).phase.Succeeded?
    case Fail(w, _) => Busy(s, w) && StateOf(s, w).phase.Unsuccessful?
    case Crash(_) => true
    case Reap => true
  }

  function Log(trails: seq<Trail>, id: RowId, e: RowEvent): seq<Trail>
    requires id < |trails|
  {
    trails[id := trails[id] + [e]]
  }

  function LogClaims(trails: seq<Trail>, ids: seq<RowId>, w: WorkerId, at: int): (t: seq<Trail>)
    ensures |t| == |trails|
  {
    seq(|trails|, i requires 0 <= i < |trails| =>
      if i in ids then trails[i] + [ClaimEvent(w, at)] else trails[i])
  }

  function LogReclaims(trails: seq<Trail>, t: Table, now: int, olderThan: int): (r: seq<Trail>)
    ensures |r| == |trails|
  {
    seq(|trails|, i requires 0 <= i < |trails| =>
      if i < |t| && Stale(t[i], now, olderThan) then trails[i] + [ReclaimEvent] else trails[i])
  }

  function Holding(ids: seq<RowId>, at: int): (h: seq<Held>)
    ensures |h| == |ids|
  {
    seq(|ids|, i requires 0 <= i < |ids| => Held(ids[i], at))
  }

  function Hear(c: Config, s: State, t: Target, id: RowId): map<string, seq<RowId>> {
    match t
    case Mcp => s.acted
    case Webhook(e) => s.acted[e := Receiver.Present(c.dedup(e), Acted(s, e), id)]
  }

  ghost function Apply(c: Config, s: State, step: Step): State
    requires Enabled(c, s, step)
  {
    match step
    case Enqueue(eventType, payload, key) =>
      var table := Enqueued(s.table, eventType, payload, key, s.now);
      s.(table := table, trails := if |table| == |s.table| then s.trails else s.trails + [[]])
    case Advance(elapsed) => s.(now := s.now + elapsed)
    case Claim(w, ids, _, outcome) =>
      if !outcome.TookEffect() then s
      else s.(table := Claimed(s.table, ids, s.now),
              trails := LogClaims(s.trails, ids, w, s.now),
              workers := if outcome.Reported()
                         then s.workers[w := WorkerState(Holding(ids, s.now), Fetched)] else s.workers)
    case Begin(w, listed) =>
      var ws := StateOf(s, w);
      var targets := Targets(Worker.RouteOf(s.table[Head(s, w)], c.worker.webhooksWired), listed);
      s.(workers := s.workers[w := ws.(phase := if targets.Some? then Sending(targets.value, 0) else Unsuccessful)])
    case Send(w, answer) =>
      var ws := StateOf(s, w);
      var acted := if answer.Unheard? then s.acted else Hear(c, s, ws.phase.targets[ws.phase.next], Head(s, w));
      s.(acted := acted,
         workers := s.workers[w := ws.(phase := if answer.Heard? then ws.phase.(next := ws.phase.next + 1)
                                                else Unsuccessful)])
    case Finish(w) =>
      var ws := StateOf(s, w);
      s.(trails := Log(s.trails, Head(s, w), Delivered(w, ws.phase.targets)),
         workers := s.workers[w := ws.(phase := Succeeded(ws.phase.targets))])
    case Done(w, outcome) =>
      var id := Head(s, w);
      var s' := s.(workers := s.workers[w := Drop(StateOf(s, w))]);
      if !outcome.TookEffect() then s'
      else s'.(table := MarkedDone(s.table, id, s.now), trails := Log(s.trails, id, DoneMark(w, outcome.Reported())))
    case Fail(w, outcome) =>
      var id := Head(s, w);
      var s' := s.(workers := s.workers[w := Drop(StateOf(s, w))]);
      if !outcome.TookEffect() then s'
      else
        var table := MarkedFailed(s.table, id, Worker.DELIVERY_ERROR, c.worker.maxRetries);
        s'.(table := table, trails := Log(s.trails, id, FailMark(w, table[id].status == Failed, outcome.Reported())))
    case Crash(w) => s.(workers := s.workers[w := IDLE])
    case Reap =>
      s.(table := Reclaimed(s.table, s.now, c.worker.staleThreshold),
         trails := LogReclaims(s.trails, s.table, s.now, c.worker.staleThreshold))
  }

  const INIT := State([], 0, map[], map[], [])

  /** The state a sequence of steps reaches, if each was enabled in turn. */
  ghost function Exec(c: Config, steps: seq<Step>): Option<State> {
    if steps == [] then Some(INIT)
    else
      var s := Exec(c, steps[..|steps| - 1]);
      if s.Some? && Enabled(c, s.value, steps[|steps| - 1])
      then Some(Apply(c, s.value, steps[|steps| - 1])) else None
  }

  // ---------------------------------------------------------------- the table is a replay of the trails

  /** The row is what its trail says, and the trail is legal. */
  predicate RowMatches(max: nat, r: Row, trail: Trail) {
    && Legal(trail, max)
    && r.status == StatusOf(trail, max)
    && r.retryCount == Fails(trail)
    && (r.status == Processing ==> r.claimedAt.Some?)
  }

  ghost predicate Matches(c: Config, s: State) {
    && |s.trails| == |s.table|
    && forall i :: 0 <= i < |s.table| ==> RowMatches(c.worker.maxRetries, s.table[i], s.trails[i])
  }

  /** What the trail of its k-th held row shows about worker w. */
  predicate HoldingMatches(s: State, w: WorkerId, k: nat)
    requires k < |StateOf(s, w).held|
  {
    var ws := StateOf(s, w);
    var id := ws.held[k].id;
    && id < |s.trails|
    && var last := LastOf(s.trails[id], w);
       last.Some? &&
       (if k == 0 && ws.phase.Succeeded? then last.value == Delivered(w, ws.phase.targets)
        else last.value == ClaimEvent(w, ws.held[k].at))
  }

  ghost predicate DistinctHeld(h: seq<Held>) {
    forall i, j :: 0 <= i < j < |h| ==> h[i].id != h[j].id
  }

  ghost predicate WorkersMatch(s: State) {
    && (forall w: WorkerId :: DistinctHeld(StateOf(s, w).held))
    && (forall w: WorkerId, k: nat :: k < |StateOf(s, w).held| ==> HoldingMatches(s, w, k))
  }

  lemma ClaimedMatches(max: nat, r: Row, trail: Trail, w: WorkerId, now: int)
    requires RowMatches(max, r, trail) && r.status == Pending
    ensures RowMatches(max, ClaimRow(r, now), trail + [ClaimEvent(w, now)])
  {
    Extend(trail, ClaimEvent(w, now), max);
  }

  lemma ReclaimedMatches(max: nat, r: Row, trail: Trail)
    requires RowMatches(max, r, trail) && r.status == Processing
    ensures RowMatches(max, ReclaimedRow(r), trail + [ReclaimEvent])
  {
    Extend(trail, ReclaimEvent, max);
  }

  lemma DeliveredMatches(max: nat, r: Row, trail: Trail, w: WorkerId, targets: seq<Target>)
    requires RowMatches(max, r, trail) && LastOf(trail, w).Some? && LastOf(trail, w).value.ClaimEvent?
    ensures RowMatches(max, r, trail + [Delivered(w, targets)])
  {
    Extend(trail, Delivered(w, targets), max);
  }

  lemma DoneMatches(max: nat, r: Row, trail: Trail, w: WorkerId, now: int, reported: bool)
    requires RowMatches(max, r, trail) && LastOf(trail, w).Some? && LastOf(trail, w).value.Delivered?
    ensures RowMatches(max, DoneRow(r, now), trail + [DoneMark(w, reported)])
  {
    Extend(trail, DoneMark(w, reported), max);
  }

  lemma FailMatches(max: nat, r: Row, trail: Trail, w: WorkerId, error: string, reported: bool)
    requires RowMatches(max, r, trail) && LastOf(trail, w).Some? && LastOf(trail, w).value.ClaimEvent?
    ensures var r' := FailedRow(r, error, max);
            RowMatches(max, r', trail + [FailMark(w, r'.status == Failed, reported)])
  {
    Extend(trail, FailMark(w, FailedRow(r, error, max).status == Failed, reported), max);
  }

  lemma StepKeepsMatches(c: Config, s: State, step: Step)
    requires Matches(c, s) && WorkersMatch(s) && Enabled(c, s, step)
    ensures Matches(c, Apply(c, s, step))
  {
    var max := c.worker.maxRetries;
    var s' := Apply(c, s, step);
    if !step.Enqueue? {
      forall i | 0 <= i < |s'.table| ensures RowMatches(max, s'.table[i], s'.trails[i]) {
        assert RowMatches(max, s.table[i], s.trails[i]);
        match step
        case Claim(w, ids, locked, outcome) =>
          if outcome.TookEffect() && i in ids {
            ClaimedMatches(max, s.table[i], s.trails[i], w, s.now);
          }
        case Finish(w) =>
          assert HoldingMatches(s, w, 0);
          if i == Head(s, w) {
            DeliveredMatches(max, s.table[i], s.trails[i], w, StateOf(s, w).phase.targets);
          }
        case Done(w, outcome) =>
          assert HoldingMatches(s, w, 0);
          if i == Head(s, w) {
            DoneMatches(max, s.table[i], s.trails[i], w, s.now, outcome.Reported());
          }
        case Fail(w, outcome) =>
          assert HoldingMatches(s, w, 0);
          if i == Head(s, w) {
            FailMatches(max, s.table[i], s.trails[i], w, Worker.DELIVERY_ERROR, outcome.Reported());
          }
        case Reap =>
          if Stale(s.table[i], s.now, c.worker.staleThreshold) {
            ReclaimedMatches(max, s.table[i], s.trails[i]);
          }
        case _ =>
      }
    }
  }

  lemma StepKeepsWorkers(c: Config, s: State, step: Step)
    requires Matches(c, s) && WorkersMatch(s) && Enabled(c, s, step)
    ensures WorkersMatch(Apply(c, s, step))
  {
    var s' := Apply(c, s, step);
    forall w: WorkerId ensures DistinctHeld(StateOf(s', w).held) {
      assert DistinctHeld(StateOf(s, w).held);
    }
    forall w: WorkerId, k: nat | k < |StateOf(s', w).held| ensures HoldingMatches(s', w, k) {
      StepKeepsHolding(c, s, step, w, k);
    }
  }

  lemma StepKeepsHolding(c: Config, s: State, step: Step, w: WorkerId, k: nat)
    requires Matches(c, s) && WorkersMatch(s) && Enabled(c, s, step)
    requires k < |StateOf(Apply(c, s, step), w).held|
    ensures HoldingMatches(Apply(c, s, step), w, k)
  {
    var s' := Apply(c, s, step);
    var ws, ws' := StateOf(s, w), StateOf(s', w);
    if step.Claim? && step.w == w && step.outcome.Reported() {
      var id := ws'.held[k].id;
      assert id == step.ids[k] && Claimable(s.table, step.locked, id);
      Extend(s.trails[id], ClaimEvent(w, s.now), c.worker.maxRetries);
    } else if (step.Done? || step.Fail?) && step.w == w {
      assert ws'.held[k] == ws.held[k + 1];
      assert HoldingMatches(s, w, k + 1) && HoldingMatches(s, w, 0);
      assert ws.held[0].id != ws.held[k + 1].id;
      OthersUntouched(c, s, step, w, ws.held[k + 1].id);
    } else {
      assert ws'.held == ws.held;
      assert HoldingMatches(s, w, k) && HoldingMatches(s, w, 0);
      OthersUntouched(c, s, step, w, ws.held[k].id);
    }
  }

  /** A step leaves what w last did with a row alone, unless w finished or marked that very row. */
  lemma OthersUntouched(c: Config, s: State, step: Step, w: WorkerId, id: RowId)
    requires Matches(c, s) && WorkersMatch(s) && Enabled(c, s, step) && id < |s.trails|
    ensures var s' := Apply(c, s, step);
            id < |s'.trails| &&
            LastOf(s'.trails[id], w) ==
              if step.Finish? && step.w == w && Head(s, w) == id then Some(Delivered(w, StateOf(s, w).phase.targets))
              else if (step.Done? || step.Fail?) && step.w == w && Head(s, w) == id then LastOf(s'.trails[id], w)
              else if step.Claim? && step.w == w then LastOf(s'.trails[id], w)
              else LastOf(s.trails[id], w)
  {
    var s' := Apply(c, s, step);
    if s'.trails[id] != s.trails[id] {
      var e := s'.trails[id][|s.trails[id]|];
      assert s'.trails[id] == s.trails[id] + [e];
      Extend(s.trails[id], e, c.worker.maxRetries);
    }
  }

  lemma {:induction false} Reachable(c: Config, steps: seq<Step>)
    requires Exec(c, steps).Some?
    ensures Matches(c, Exec(c, steps).value) && WorkersMatch(Exec(c, steps).value)
  {
    if steps != [] {
      var before := steps[..|steps| - 1];
      Reachable(c, before);
      StepKeepsMatches(c, Exec(c, before).value, steps[|steps| - 1]);
      StepKeepsWorkers(c, Exec(c, before).value, steps[|steps| - 1]);
    }
  }
}

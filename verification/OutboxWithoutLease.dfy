/** Why the lease theorem needs its lease: MarkDone and MarkFailedWithRetry match on the id alone. */
module OutboxWithoutLease {
  import opened Base
  import opened OutboxTable
  import opened OutboxTrail
  import opened OutboxProtocol
  import opened OutboxGuarantees
  import Worker = OutboxWorker

  function Sample(maxRetries: nat): Config {
    Config(Worker.Config(10, maxRetries, 60, true, true), _ => 16)
  }

  const SLOW: WorkerId := 1
  const FAST: WorkerId := 2

  const EVENT := "content.entry.created"
  const PAYLOAD := Fields("", "acme")

  function RowIn(status: Status, retries: nat, claimedAt: Option<int>, processedAt: Option<int>, error: Option<string>): Row {
    Row(EVENT, PAYLOAD, "k", status, retries, 0, claimedAt, processedAt, error)
  }

  const RECLAIMED := "reclaimed: stale processing"

  /** One row, and what the two workers hold. */
  function At(now: int, row: Row, slow: Option<WorkerState>, fast: Option<WorkerState>, trail: Trail): State {
    State([row], now,
          (if slow.Some? then map[SLOW := slow.value] else map[]) +
          (if fast.Some? then map[FAST := fast.value] else map[]),
          map[], [trail])
  }

  ghost predicate Leads(c: Config, s: State, step: Step, s': State) {
    Enabled(c, s, step) && Apply(c, s, step) == s'
  }

  lemma Follow(c: Config, steps: seq<Step>, s: State, step: Step, s': State)
    requires Exec(c, steps) == Some(s) && Leads(c, s, step, s')
    ensures Exec(c, steps + [step]) == Some(s')
  {
    Then(c, steps, step);
  }

  lemma ContentRoute()
    ensures forall r: Row :: r.eventType == EVENT && r.payload == PAYLOAD ==>
              Worker.RouteOf(r, true) == Worker.ToTenant("acme")
  {
    assert EVENT[..8] == "content.";
    ContentIsNotUser(EVENT);
  }

  const JUST_CLAIMED_SLOW := WorkerState([Held(0, 0)], Fetched)
  const JUST_CLAIMED_FAST := WorkerState([Held(0, 61)], Fetched)
  const OVERLAP_TRAIL := [ClaimEvent(SLOW, 0), ReclaimEvent, ClaimEvent(FAST, 61)]
  const OVERLAP_ROW := RowIn(Processing, 0, Some(61), None, Some(RECLAIMED))

  /** The slow worker claims, outstays its lease, and the fast worker claims the reclaimed row. */
  function Overlap(): seq<Step> {
    [Enqueue(EVENT, PAYLOAD, "k")] + [Claim(SLOW, [0], {}, Applied)] + [Advance(61)] + [Reap] +
    [Claim(FAST, [0], {}, Applied)]
  }

  function Overlapped(): State {
    At(61, OVERLAP_ROW, Some(JUST_CLAIMED_SLOW), Some(JUST_CLAIMED_FAST), OVERLAP_TRAIL)
  }

  lemma ClaimsIt(c: Config, now: int, error: Option<string>, others: map<WorkerId, WorkerState>, trail: Trail, w: WorkerId)
    requires c.worker.limit > 0 && w !in others
    ensures Leads(c, State([RowIn(Pending, 0, None, None, error)], now, others, map[], [trail]),
                  Claim(w, [0], {}, Applied),
                  State([RowIn(Processing, 0, Some(now), None, error)], now,
                        others[w := WorkerState([Held(0, now)], Fetched)], map[], [trail + [ClaimEvent(w, now)]]))
  {
    assert Holding([0], now) == [Held(0, now)];
  }

  lemma ReapsIt(c: Config, others: map<WorkerId, WorkerState>, trail: Trail)
    requires c.worker.staleThreshold == 60
    ensures Leads(c, State([RowIn(Processing, 0, Some(0), None, None)], 61, others, map[], [trail]), Reap,
                  State([RowIn(Pending, 0, None, None, Some(RECLAIMED))], 61, others, map[], [trail + [ReclaimEvent]]))
  {
  }

  lemma OverlapHappens(max: nat)
    ensures Exec(Sample(max), Overlap()) == Some(Overlapped())
  {
    var c, p := Sample(max), Overlap();
    var row := RowIn(Pending, 0, None, None, None);
    assert Leads(c, INIT, p[0], At(0, row, None, None, []));
    Follow(c, [], INIT, p[0], At(0, row, None, None, []));
    ClaimsIt(c, 0, None, map[], [], SLOW);
    var taken := RowIn(Processing, 0, Some(0), None, None);
    var s2 := At(0, taken, Some(JUST_CLAIMED_SLOW), None, [ClaimEvent(SLOW, 0)]);
    assert [] + [ClaimEvent(SLOW, 0)] == [ClaimEvent(SLOW, 0)];
    Follow(c, [p[0]], At(0, row, None, None, []), p[1], s2);
    Follow(c, [p[0]] + [p[1]], s2, p[2], s2.(now := 61));
    ReapsIt(c, s2.workers, [ClaimEvent(SLOW, 0)]);
    var freed := RowIn(Pending, 0, None, None, Some(RECLAIMED));
    var s4 := At(61, freed, Some(JUST_CLAIMED_SLOW), None, [ClaimEvent(SLOW, 0), ReclaimEvent]);
    assert [ClaimEvent(SLOW, 0)] + [ReclaimEvent] == [ClaimEvent(SLOW, 0), ReclaimEvent];
    Follow(c, [p[0]] + [p[1]] + [p[2]], s2.(now := 61), p[3], s4);
    ClaimsIt(c, 61, Some(RECLAIMED), s4.workers, [ClaimEvent(SLOW, 0), ReclaimEvent], FAST);
    assert [ClaimEvent(SLOW, 0), ReclaimEvent] + [ClaimEvent(FAST, 61)] == OVERLAP_TRAIL;
    Follow(c, [p[0]] + [p[1]] + [p[2]] + [p[3]], s4, p[4], Overlapped());
  }

  /** A worker whose directory lookup fails marks its row failed. */
  lemma FailsIt(c: Config, steps: seq<Step>, s: State, w: WorkerId, dead: bool)
    requires c.worker.webhooksWired && Exec(c, steps) == Some(s)
    requires |s.table| == |s.trails| == 1 && s.table[0].eventType == EVENT && s.table[0].payload == PAYLOAD
    requires |StateOf(s, w).held| == 1 && StateOf(s, w).held[0].id == 0 && StateOf(s, w).phase.Fetched?
    requires dead == (s.table[0].retryCount + 1 >= c.worker.maxRetries)
    ensures var s' := Exec(c, steps + [Begin(w, None)] + [Fail(w, Applied)]);
            && s'.Some?
            && s'.value.table == [FailedRow(s.table[0], Worker.DELIVERY_ERROR, c.worker.maxRetries)]
            && s'.value.trails == [s.trails[0] + [FailMark(w, dead, true)]]
            && s'.value.now == s.now
            && forall v: WorkerId :: v != w ==> StateOf(s'.value, v) == StateOf(s, v)
  {
    ContentRoute();
    Then(c, steps, Begin(w, None));
    Then(c, steps + [Begin(w, None)], Fail(w, Applied));
  }

  /** A worker whose tenant has no endpoint marks its row done. */
  lemma FinishesIt(c: Config, steps: seq<Step>, s: State, w: WorkerId)
    requires c.worker.webhooksWired && Exec(c, steps) == Some(s)
    requires |s.table| == |s.trails| == 1 && s.table[0].eventType == EVENT && s.table[0].payload == PAYLOAD
    requires |StateOf(s, w).held| == 1 && StateOf(s, w).held[0].id == 0 && StateOf(s, w).phase.Fetched?
    ensures var s' := Exec(c, steps + [Begin(w, Some([]))] + [Finish(w)] + [Step.Done(w, Applied)]);
            && s'.Some?
            && s'.value.table == [DoneRow(s.table[0], s.now)]
            && |s'.value.trails| == 1
            && forall v: WorkerId :: v != w ==> StateOf(s'.value, v) == StateOf(s, v)
  {
    ContentRoute();
    Then(c, steps, Begin(w, Some([])));
    var s1 := Exec(c, steps + [Begin(w, Some([]))]).value;
    assert StateOf(s1, w).phase == Sending([], 0);
    Then(c, steps + [Begin(w, Some([]))], Finish(w));
    Then(c, steps + [Begin(w, Some([]))] + [Finish(w)], Step.Done(w, Applied));
  }

  /** A done row goes back to pending when the slow worker's failure is marked late. */
  lemma DoneIsNotFinal(max: nat)
    requires max > 1
    ensures var c, p := Sample(max), Overlap() + [Begin(FAST, Some([]))] + [Finish(FAST)] + [Step.Done(FAST, Applied)];
            var s, s' := Exec(c, p), Exec(c, p + [Begin(SLOW, None)] + [Fail(SLOW, Applied)]);
            && s.Some? && |s.value.table| == 1 && s.value.table[0].status == Status.Done
            && s'.Some? && |s'.value.table| == 1 && s'.value.table[0].status == Pending
  {
    var c, p := Sample(max), Overlap() + [Begin(FAST, Some([]))] + [Finish(FAST)] + [Step.Done(FAST, Applied)];
    OverlapHappens(max);
    FinishesIt(c, Overlap(), Overlapped(), FAST);
    assert StateOf(Overlapped(), SLOW) == JUST_CLAIMED_SLOW;
    FailsIt(c, p, Exec(c, p).value, SLOW, false);
  }

  /** With one attempt allowed, both workers report the same row dead. */
  lemma DeadIsReportedTwice()
    ensures var s := Exec(Sample(1), Overlap() + [Begin(FAST, None)] + [Fail(FAST, Applied)] +
                                     [Begin(SLOW, None)] + [Fail(SLOW, Applied)]);
            s.Some? && |s.value.trails| == 1 && DeadReports(s.value.trails[0]) == 2
  {
    var c, p := Sample(1), Overlap() + [Begin(FAST, None)] + [Fail(FAST, Applied)];
    OverlapHappens(1);
    FailsIt(c, Overlap(), Overlapped(), FAST, true);
    assert StateOf(Overlapped(), SLOW) == JUST_CLAIMED_SLOW;
    FailsIt(c, p, Exec(c, p).value, SLOW, true);
    TwoReports();
  }

  lemma OneMoreReport(trail: Trail, w: WorkerId)
    ensures DeadReports(trail + [FailMark(w, true, true)]) == DeadReports(trail) + 1
  {
    assert (trail + [FailMark(w, true, true)])[..|trail|] == trail;
  }

  lemma TwoReports()
    ensures DeadReports(OVERLAP_TRAIL + [FailMark(FAST, true, true)] + [FailMark(SLOW, true, true)]) == 2
  {
    var t := OVERLAP_TRAIL;
    assert t[..2][..1] == t[..1] && t[..1][..0] == [] && t[..|t| - 1] == t[..2];
    assert DeadReports(t[..1]) == 0;
    assert DeadReports(t[..2]) == 0;
    OneMoreReport(t, FAST);
    OneMoreReport(t + [FailMark(FAST, true, true)], SLOW);
  }
}

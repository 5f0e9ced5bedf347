/** The worker of OutboxWorker is one of the protocol's workers. Whatever a run of it does to the table, to
    the receivers and to its own counters, some sequence of protocol steps does, so what is proved about all
    interleavings of steps holds of it. */
module OutboxRefinement {
  import opened Base
  import opened OutboxTable
  import opened OutboxTrail
  import opened OutboxProtocol
  import OutboxGuarantees
  import Receiver
  import Worker = OutboxWorker

  ghost predicate At(c: Config, steps: seq<Step>, s: State) {
    Exec(c, steps) == Some(s) && |s.trails| == |s.table|
  }

  /** One more step. */
  lemma Go(c: Config, steps: seq<Step>, s: State, step: Step) returns (more: seq<Step>, s': State)
    requires At(c, steps, s) && Enabled(c, s, step)
    ensures steps <= more && At(c, more, s') && s' == Apply(c, s, step)
  {
    more, s' := steps + [step], Apply(c, s, step);
    OutboxGuarantees.Then(c, steps, step);
    Reachable(c, more);
  }

  // ---------------------------------------------------------------- what the worker's records correspond to

  /** The ids that endpoint e's receiver handled among these requests, in order. */
  function Handled(sends: seq<Worker.Sent>, e: string): seq<RowId> {
    if sends == [] then []
    else (if sends[0].endpoint == e && !sends[0].answer.Unheard? then [sends[0].id] else []) + Handled(sends[1..], e)
  }

  /** What a receiver has acted on once these ids were presented to it too. */
  function After(limit: nat, accepted: seq<RowId>, ids: seq<RowId>): seq<RowId>
    decreases |ids|
  {
    if ids == [] then accepted else After(limit, Receiver.Present(limit, accepted, ids[0]), ids[1..])
  }

  /** How often an event occurs in all the trails together. */
  function Occurs(trails: seq<Trail>, e: RowEvent): nat {
    if trails == [] then 0 else Occurs(trails[..|trails| - 1], e) + Count(trails[|trails| - 1], e)
  }

  ghost predicate ActedAfter(c: Config, s: State, s': State, sends: seq<Worker.Sent>) {
    forall e: string :: Acted(s', e) == After(c.dedup(e), Acted(s, e), Handled(sends, e))
  }

  predicate MarksAgree(w: WorkerId, s: State, v: Worker.Counters, s': State, v': Worker.Counters) {
    && v'.delivered - v.delivered == Occurs(s'.trails, DoneMark(w, true)) - Occurs(s.trails, DoneMark(w, true))
    && v'.dead - v.dead == Occurs(s'.trails, FailMark(w, true, true)) - Occurs(s.trails, FailMark(w, true, true))
  }

  /** From (s, v) to (s', v') the machine did what worker w recorded: the table is the same, every receiver
      acted on what the new requests brought it, delivered counts w's acknowledged done marks, dead its
      acknowledged dead marks, and there is no more than one notice for each of the latter. */
  ghost predicate Follows(c: Config, w: WorkerId, s: State, v: Worker.World, s': State, v': Worker.World) {
    && s'.table == v'.table
    && v.sends <= v'.sends && ActedAfter(c, s, s', v'.sends[|v.sends|..])
    && MarksAgree(w, s, v.counters, s', v'.counters)
    && |v'.notices| - |v.notices| <= v'.counters.dead - v.counters.dead
  }

  lemma {:induction false} HandledJoin(a: seq<Worker.Sent>, b: seq<Worker.Sent>, e: string)
    ensures Handled(a + b, e) == Handled(a, e) + Handled(b, e)
  {
    if a == [] {
      assert a + b == b;
    } else {
      assert (a + b)[1..] == a[1..] + b;
      HandledJoin(a[1..], b, e);
    }
  }

  lemma {:induction false} AfterJoin(limit: nat, accepted: seq<RowId>, a: seq<RowId>, b: seq<RowId>)
    ensures After(limit, accepted, a + b) == After(limit, After(limit, accepted, a), b)
    decreases |a|
  {
    if a == [] {
      assert a + b == b;
    } else {
      assert (a + b)[1..] == a[1..] + b;
      AfterJoin(limit, Receiver.Present(limit, accepted, a[0]), a[1..], b);
    }
  }

  lemma ActedJoin(c: Config, s: State, s1: State, s2: State, a: seq<Worker.Sent>, b: seq<Worker.Sent>)
    requires ActedAfter(c, s, s1, a) && ActedAfter(c, s1, s2, b)
    ensures ActedAfter(c, s, s2, a + b)
  {
    forall e: string ensures Acted(s2, e) == After(c.dedup(e), Acted(s, e), Handled(a + b, e)) {
      HandledJoin(a, b, e);
      AfterJoin(c.dedup(e), Acted(s, e), Handled(a, e), Handled(b, e));
    }
  }

  lemma FollowsSame(c: Config, w: WorkerId, s: State, v: Worker.World)
    requires s.table == v.table
    ensures Follows(c, w, s, v, s, v)
  {
    assert v.sends[|v.sends|..] == [];
  }

  lemma FollowsJoin(c: Config, w: WorkerId, s: State, v: Worker.World, s1: State, v1: Worker.World, s2: State, v2: Worker.World)
    requires Follows(c, w, s, v, s1, v1) && Follows(c, w, s1, v1, s2, v2)
    ensures Follows(c, w, s, v, s2, v2)
  {
    var a, b := v1.sends[|v.sends|..], v2.sends[|v1.sends|..];
    ActedJoin(c, s, s1, s2, a, b);
    assert v2.sends[|v.sends|..] == a + b;
  }

  lemma {:induction false} OccursAlike(t: seq<Trail>, t': seq<Trail>, e: RowEvent)
    requires |t| == |t'| && forall i :: 0 <= i < |t| ==> Count(t[i], e) == Count(t'[i], e)
    ensures Occurs(t, e) == Occurs(t', e)
  {
    if t != [] {
      OccursAlike(t[..|t| - 1], t'[..|t'| - 1], e);
    }
  }

  lemma CountLast(trail: Trail, last: RowEvent, e: RowEvent)
    ensures Count(trail + [last], e) == Count(trail, e) + (if last == e then 1 else 0)
  {
    assert (trail + [last])[..|trail|] == trail;
  }

  lemma {:induction false} OccursUpdated(trails: seq<Trail>, id: RowId, t: Trail, e: RowEvent)
    requires id < |trails|
    ensures Occurs(trails[id := t], e) == Occurs(trails, e) - Count(trails[id], e) + Count(t, e)
  {
    var n := |trails| - 1;
    if id == n {
      assert trails[id := t][..n] == trails[..n];
    } else {
      OccursUpdated(trails[..n], id, t, e);
      assert trails[id := t][..n] == trails[..n][id := t];
    }
  }

  lemma OccursLogged(trails: seq<Trail>, id: RowId, last: RowEvent, e: RowEvent)
    requires id < |trails|
    ensures Occurs(Log(trails, id, last), e) == Occurs(trails, e) + (if last == e then 1 else 0)
  {
    OccursUpdated(trails, id, trails[id] + [last], e);
    CountLast(trails[id], last, e);
  }

  /** At most a claim or a reclaim was added. */
  predicate Unmarked(t: Trail, t': Trail) {
    || t' == t
    || (|t'| == |t| + 1 && t'[..|t|] == t && (t'[|t|].ClaimEvent? || t'[|t|].ReclaimEvent?))
  }

  /** Neither claims nor reclaims are marks. */
  lemma NoMarks(t: seq<Trail>, t': seq<Trail>, e: RowEvent)
    requires |t| == |t'| && forall i :: 0 <= i < |t| ==> Unmarked(t[i], t'[i])
    requires !e.ClaimEvent? && !e.ReclaimEvent?
    ensures Occurs(t', e) == Occurs(t, e)
  {
    forall i | 0 <= i < |t| ensures Count(t'[i], e) == Count(t[i], e) {
      if t'[i] != t[i] {
        CountLast(t[i], t'[i][|t[i]|], e);
        assert t'[i] == t[i] + [t'[i][|t[i]|]];
      }
    }
    OccursAlike(t', t, e);
  }

  // ---------------------------------------------------------------- one delivery

  /** Nothing moved but worker w's progress on its first row and what receivers heard. */
  ghost predicate Working(c: Config, s: State, s': State, w: WorkerId, sends: seq<Worker.Sent>) {
    && s'.table == s.table && s'.now == s.now && StateOf(s', w).held == StateOf(s, w).held
    && ActedAfter(c, s, s', sends)
    && MarksAgree(w, s, Worker.Counters(0, 0, 0, 0), s', Worker.Counters(0, 0, 0, 0))
  }

  lemma WorkingJoin(c: Config, s: State, s1: State, s2: State, w: WorkerId, a: seq<Worker.Sent>, b: seq<Worker.Sent>)
    requires Working(c, s, s1, w, a) && Working(c, s1, s2, w, b)
    ensures Working(c, s, s2, w, a + b)
  {
    ActedJoin(c, s, s1, s2, a, b);
  }

  function AnswerOf(t: Target, id: RowId, env: Worker.Env): SendOutcome {
    match t
    case Mcp => if env.upsert(id) then Heard else Unheard
    case Webhook(e) => env.send(e, id)
  }

  predicate AllHeard(targets: seq<Target>, from: nat, id: RowId, env: Worker.Env) {
    forall k :: from <= k < |targets| ==> AnswerOf(targets[k], id, env).Heard?
  }

  function Request(t: Target, id: RowId, env: Worker.Env): seq<Worker.Sent> {
    match t
    case Mcp => []
    case Webhook(e) => [Worker.Sent(e, id, env.send(e, id))]
  }

  /** The requests to endpoints from the n-th target on. */
  function SentFrom(targets: seq<Target>, n: nat, id: RowId, env: Worker.Env): seq<Worker.Sent>
    requires n <= |targets|
    decreases |targets| - n
  {
    if n == |targets| then []
    else Request(targets[n], id, env) + (if AnswerOf(targets[n], id, env).Heard? then SentFrom(targets, n + 1, id, env) else [])
  }

  lemma AllHeardFrom(targets: seq<Target>, n: nat, id: RowId, env: Worker.Env)
    requires n < |targets|
    ensures AllHeard(targets, n, id, env) <==> AnswerOf(targets[n], id, env).Heard? && AllHeard(targets, n + 1, id, env)
  {
  }

  /** One Send step, answered as the environment answers. */
  lemma OneSend(c: Config, s: State, w: WorkerId, env: Worker.Env)
    requires Enabled(c, s, Send(w, Heard))
    ensures var p := StateOf(s, w).phase;
            var t := p.targets[p.next];
            var answer := AnswerOf(t, Head(s, w), env);
            var s' := Apply(c, s, Send(w, answer));
            && Working(c, s, s', w, Request(t, Head(s, w), env))
            && StateOf(s', w).phase == (if answer.Heard? then p.(next := p.next + 1) else Unsuccessful)
  {
    var p, id := StateOf(s, w).phase, Head(s, w);
    var t := p.targets[p.next];
    var answer := AnswerOf(t, id, env);
    var s' := Apply(c, s, Send(w, answer));
    forall e: string ensures Acted(s', e) == After(c.dedup(e), Acted(s, e), Handled(Request(t, id, env), e)) {
      OutboxGuarantees.ActedStep(c, s, Send(w, answer), e);
      if t == Webhook(e) && !answer.Unheard? {
        assert Handled(Request(t, id, env), e) == [id];
        assert [id][1..] == [];
      }
    }
  }

  lemma FinishSends(c: Config, s: State, w: WorkerId)
    requires Enabled(c, s, Finish(w))
    ensures var s' := Apply(c, s, Finish(w));
            && Working(c, s, s', w, []) && StateOf(s', w).phase == Succeeded(StateOf(s, w).phase.targets)
  {
    OccursLogged(s.trails, Head(s, w), Delivered(w, StateOf(s, w).phase.targets), DoneMark(w, true));
    OccursLogged(s.trails, Head(s, w), Delivered(w, StateOf(s, w).phase.targets), FailMark(w, true, true));
  }

  /** The remaining sends, up to the first that is not answered. */
  lemma {:induction false} SendOn(c: Config, steps: seq<Step>, s: State, w: WorkerId, env: Worker.Env)
    returns (more: seq<Step>, s': State)
    requires At(c, steps, s) && Busy(s, w) && StateOf(s, w).phase.Sending?
    requires StateOf(s, w).phase.next <= |StateOf(s, w).phase.targets|
    ensures steps <= more && At(c, more, s')
    ensures var p := StateOf(s, w).phase;
            && Working(c, s, s', w, SentFrom(p.targets, p.next, Head(s, w), env))
            && StateOf(s', w).phase == if AllHeard(p.targets, p.next, Head(s, w), env) then Succeeded(p.targets) else Unsuccessful
    decreases |StateOf(s, w).phase.targets| - StateOf(s, w).phase.next
  {
    var p, id := StateOf(s, w).phase, Head(s, w);
    if p.next == |p.targets| {
      FinishSends(c, s, w);
      more, s' := Go(c, steps, s, Finish(w));
    } else {
      var t := p.targets[p.next];
      AllHeardFrom(p.targets, p.next, id, env);
      OneSend(c, s, w, env);
      var s1;
      more, s1 := Go(c, steps, s, Send(w, AnswerOf(t, id, env)));
      s' := s1;
      if AnswerOf(t, id, env).Heard? {
        more, s' := SendOn(c, more, s1, w, env);
        WorkingJoin(c, s, s1, s', w, Request(t, id, env), SentFrom(p.targets, p.next + 1, id, env));
      } else {
        assert Request(t, id, env) + [] == Request(t, id, env);
      }
    }
  }

  function Listed(route: Worker.Route, env: Worker.Env): Option<seq<string>> {
    if route.ToTenant? then env.directory(route.tenantId) else None
  }

  lemma {:induction false} FanoutIsSentFrom(listed: seq<string>, targets: seq<Target>, n: nat, id: RowId, env: Worker.Env)
    requires |targets| == |listed| && n <= |listed| && forall k :: 0 <= k < |listed| ==> targets[k] == Webhook(listed[k])
    ensures Worker.Fanout(listed[n..], id, env.send) == SentFrom(targets, n, id, env)
    decreases |listed| - n
  {
    if n < |listed| {
      FanoutIsSentFrom(listed, targets, n + 1, id, env);
      assert listed[n..][1..] == listed[n + 1..];
    }
  }

  /** What deliver returns and sends is what answering the protocol's targets in turn gives. */
  lemma DeliversIffHeard(row: Row, id: RowId, cfg: Worker.Config, env: Worker.Env)
    ensures var route := Worker.RouteOf(row, cfg.webhooksWired);
            var targets := Targets(route, Listed(route, env));
            && (Worker.Delivers(row, id, cfg, env) <==> targets.Some? && AllHeard(targets.value, 0, id, env))
            && Worker.SentTo(row, id, cfg, env) == (if targets.Some? then SentFrom(targets.value, 0, id, env) else [])
  {
    var route := Worker.RouteOf(row, cfg.webhooksWired);
    var targets := Targets(route, Listed(route, env));
    if route.ToMcp? {
      assert targets.value[0] == Mcp;
    } else if targets.Some? {
      var listed := env.directory(route.tenantId).value;
      FanoutIsSentFrom(listed, targets.value, 0, id, env);
      assert listed[0..] == listed;
      assert forall k :: 0 <= k < |listed| ==> targets.value[k] == Webhook(listed[k]);
      if AllHeard(targets.value, 0, id, env) {
        assert forall k :: 0 <= k < |listed| ==> AnswerOf(targets.value[k], id, env).Heard?;
      }
    }
  }

  lemma BeginOn(c: Config, s: State, w: WorkerId, listed: Option<seq<string>>)
    requires Enabled(c, s, Begin(w, listed))
    ensures Working(c, s, Apply(c, s, Begin(w, listed)), w, [])
  {
  }

  /** deliver, whose answer the worker's phase then shows. */
  lemma DeliverOn(c: Config, steps: seq<Step>, s: State, w: WorkerId, row: Row, env: Worker.Env)
    returns (more: seq<Step>, s': State)
    requires At(c, steps, s) && Busy(s, w) && StateOf(s, w).phase.Fetched?
    requires row.eventType == s.table[Head(s, w)].eventType && row.payload == s.table[Head(s, w)].payload
    ensures steps <= more && At(c, more, s')
    ensures Working(c, s, s', w, Worker.SentTo(row, Head(s, w), c.worker, env))
    ensures if Worker.Delivers(row, Head(s, w), c.worker, env) then StateOf(s', w).phase.Succeeded?
            else StateOf(s', w).phase.Unsuccessful?
  {
    var id := Head(s, w);
    var route := Worker.RouteOf(row, c.worker.webhooksWired);
    assert route == Worker.RouteOf(s.table[id], c.worker.webhooksWired);
    DeliversIffHeard(row, id, c.worker, env);
    BeginOn(c, s, w, Listed(route, env));
    var s1;
    more, s1 := Go(c, steps, s, Begin(w, Listed(route, env)));
    s' := s1;
    if StateOf(s1, w).phase.Sending? {
      more, s' := SendOn(c, more, s1, w, env);
      var sends := SentFrom(StateOf(s1, w).phase.targets, 0, id, env);
      WorkingJoin(c, s, s1, s', w, [], sends);
      assert [] + sends == sends;
    }
  }

  // ---------------------------------------------------------------- one row, one batch

  function Mark(w: WorkerId, delivered: bool, outcome: DbOutcome): Step {
    if delivered then Step.Done(w, outcome) else Fail(w, outcome)
  }

  /** Marking the row done, or failed, counts what the mark's trail event says. */
  lemma MarkOn(c: Config, s: State, w: WorkerId, delivered: bool, outcome: DbOutcome)
    requires Enabled(c, s, Mark(w, delivered, outcome))
    ensures var s', id := Apply(c, s, Mark(w, delivered, outcome)), Head(s, w);
            && s'.now == s.now && StateOf(s', w) == Drop(StateOf(s, w)) && s'.acted == s.acted && |s'.table| == |s.table|
            && Occurs(s'.trails, DoneMark(w, true)) - Occurs(s.trails, DoneMark(w, true))
                 == (if delivered && outcome.Reported() then 1 else 0)
            && Occurs(s'.trails, FailMark(w, true, true)) - Occurs(s.trails, FailMark(w, true, true))
                 == (if !delivered && outcome.Reported() && s'.table[id].status == Failed then 1 else 0)
  {
    var s', id := Apply(c, s, Mark(w, delivered, outcome)), Head(s, w);
    if outcome.TookEffect() {
      var last := if delivered then DoneMark(w, outcome.Reported())
                  else FailMark(w, s'.table[id].status == Failed, outcome.Reported());
      OccursLogged(s.trails, id, last, DoneMark(w, true));
      OccursLogged(s.trails, id, last, FailMark(w, true, true));
    }
  }

  /** One iteration of processBatch: deliver, then mark. */
  lemma RowOn(c: Config, steps: seq<Step>, s: State, w: WorkerId, v: Worker.World, row: Row, env: Worker.Env)
    returns (more: seq<Step>, s': State)
    requires At(c, steps, s) && Busy(s, w) && StateOf(s, w).phase.Fetched? && env.now == s.now && v.table == s.table
    requires row.eventType == s.table[Head(s, w)].eventType && row.payload == s.table[Head(s, w)].payload
    ensures steps <= more && At(c, more, s') && s'.now == s.now && StateOf(s', w) == Drop(StateOf(s, w))
    ensures Follows(c, w, s, v, s', Worker.ProcessRow(v, Head(s, w), row, c.worker, env))
  {
    var id := Head(s, w);
    var delivers := Worker.Delivers(row, id, c.worker, env);
    var s1;
    more, s1 := DeliverOn(c, steps, s, w, row, env);
    MarkOn(c, s1, w, delivers, env.mark(id));
    more, s' := Go(c, more, s1, Mark(w, delivers, env.mark(id)));
    var v' := Worker.ProcessRow(v, id, row, c.worker, env);
    assert v'.sends[|v.sends|..] == Worker.SentTo(row, id, c.worker, env);
    assert forall e: string :: Acted(s', e) == Acted(s1, e);
  }

  /** The events a batch fetched are those still in the table. */
  predicate StillThere(t: Table, ids: seq<RowId>, rows: seq<Row>) {
    |rows| == |ids| && forall k :: 0 <= k < |ids| ==> ids[k] < |t| && SameEvent(rows[k], t[ids[k]])
  }

  lemma RowKeepsEvents(v: Worker.World, id: RowId, row: Row, cfg: Worker.Config, env: Worker.Env, ids: seq<RowId>, rows: seq<Row>)
    requires StillThere(v.table, ids, rows)
    ensures StillThere(Worker.ProcessRow(v, id, row, cfg, env).table, ids, rows)
  {
  }

  lemma HoldingRest(ids: seq<RowId>, n: nat, at: int)
    requires 0 < n <= |ids|
    ensures Holding(ids[n - 1..], at)[0] == Held(ids[n - 1], at)
    ensures Drop(WorkerState(Holding(ids[n - 1..], at), Fetched)) == WorkerState(Holding(ids[n..], at), Fetched)
  {
    assert Holding(ids[n - 1..], at)[1..] == Holding(ids[n..], at);
  }

  /** The loop of processBatch after n rows. */
  lemma {:induction false} RowsOn(c: Config, steps: seq<Step>, s: State, w: WorkerId, v: Worker.World,
                                  ids: seq<RowId>, rows: seq<Row>, n: nat, env: Worker.Env)
    returns (more: seq<Step>, s': State)
    requires At(c, steps, s) && env.now == s.now && v.table == s.table && n <= |ids|
    requires StateOf(s, w) == WorkerState(Holding(ids, s.now), Fetched) && StillThere(s.table, ids, rows)
    ensures steps <= more && At(c, more, s') && s'.now == s.now
    ensures StateOf(s', w) == WorkerState(Holding(ids[n..], s.now), Fetched) && StillThere(s'.table, ids, rows)
    ensures Follows(c, w, s, v, s', Worker.ProcessRows(v, ids[..n], rows[..n], c.worker, env))
  {
    if n == 0 {
      assert ids[0..] == ids;
      more, s' := steps, s;
      FollowsSame(c, w, s, v);
    } else {
      var before, s1 := RowsOn(c, steps, s, w, v, ids, rows, n - 1, env);
      var v1 := Worker.ProcessRows(v, ids[..n - 1], rows[..n - 1], c.worker, env);
      HoldingRest(ids, n, s.now);
      more, s' := RowOn(c, before, s1, w, v1, rows[n - 1], env);
      Worker.OneMoreRow(v, ids, rows, n, c.worker, env);
      RowKeepsEvents(v1, ids[n - 1], rows[n - 1], c.worker, env, ids, rows);
      FollowsJoin(c, w, s, v, s1, v1, s', Worker.ProcessRows(v, ids[..n], rows[..n], c.worker, env));
    }
  }

  // ---------------------------------------------------------------- one tick, one run

  predicate Idle(s: State, w: WorkerId) { StateOf(s, w) == IDLE }

  lemma ClaimMarksNothing(c: Config, s: State, w: WorkerId, ids: seq<RowId>, locked: set<RowId>, outcome: DbOutcome, v: Worker.World)
    requires Enabled(c, s, Claim(w, ids, locked, outcome)) && s.table == v.table
    ensures var s' := Apply(c, s, Claim(w, ids, locked, outcome)); Follows(c, w, s, v, s', v.(table := s'.table))
  {
    var s' := Apply(c, s, Claim(w, ids, locked, outcome));
    NoMarks(s.trails, s'.trails, DoneMark(w, true));
    NoMarks(s.trails, s'.trails, FailMark(w, true, true));
    assert v.sends[|v.sends|..] == [];
  }

  /** The whole loop over a fetched batch. */
  lemma FetchedOn(c: Config, steps: seq<Step>, s: State, w: WorkerId, v: Worker.World, ids: seq<RowId>, env: Worker.Env)
    returns (more: seq<Step>, s': State)
    requires At(c, steps, s) && env.now == s.now && v.table == s.table && forall k :: 0 <= k < |ids| ==> ids[k] < |s.table|
    requires StateOf(s, w) == WorkerState(Holding(ids, s.now), Fetched)
    ensures steps <= more && At(c, more, s') && s'.now == s.now && Idle(s', w)
    ensures Follows(c, w, s, v, s', Worker.ProcessRows(v, ids, RowsAt(s.table, ids), c.worker, env))
  {
    var rows := RowsAt(s.table, ids);
    more, s' := RowsOn(c, steps, s, w, v, ids, rows, |ids|, env);
    assert ids[..|ids|] == ids && rows[..|ids|] == rows;
  }

  /** The claim and the batch it fetched. */
  lemma BatchOn(c: Config, steps: seq<Step>, s: State, w: WorkerId, v: Worker.World, env: Worker.Env, ids: seq<RowId>)
    returns (more: seq<Step>, s': State)
    requires At(c, steps, s) && Idle(s, w) && env.now == s.now && v.table == s.table
    requires Worker.MayBatch(s.table, c.worker, env, ids)
    ensures steps <= more && At(c, more, s') && s'.now == s.now && Idle(s', w)
    ensures Follows(c, w, s, v, s', Worker.BatchWorld(v, c.worker, env, ids))
  {
    var s1;
    ClaimMarksNothing(c, s, w, ids, env.locked, env.claim, v);
    more, s1 := Go(c, steps, s, Claim(w, ids, env.locked, env.claim));
    s' := s1;
    var v1 := v.(table := s1.table);
    if env.claim.Reported() {
      more, s' := FetchedOn(c, more, s1, w, v1, ids, env);
      FollowsJoin(c, w, s, v, s1, v1, s', Worker.ProcessRows(v1, ids, RowsAt(s1.table, ids), c.worker, env));
    }
  }

  lemma ReapMarksNothing(c: Config, s: State, w: WorkerId, v: Worker.World)
    requires s.table == v.table
    ensures var s' := Apply(c, s, Reap); Follows(c, w, s, v, s', v.(table := s'.table))
  {
    var s' := Apply(c, s, Reap);
    NoMarks(s.trails, s'.trails, DoneMark(w, true));
    NoMarks(s.trails, s'.trails, FailMark(w, true, true));
    assert v.sends[|v.sends|..] == [];
  }

  lemma TickOn(c: Config, steps: seq<Step>, s: State, w: WorkerId, v: Worker.World, env: Worker.Env, ids: seq<RowId>)
    returns (more: seq<Step>, s': State)
    requires At(c, steps, s) && Idle(s, w) && env.now >= s.now && v.table == s.table
    requires Worker.MayTick(s.table, c.worker, env, ids)
    ensures steps <= more && At(c, more, s') && s'.now == env.now && Idle(s', w)
    ensures Follows(c, w, s, v, s', Worker.TickWorld(v, c.worker, env, ids))
  {
    var s1, s2;
    more, s1 := Go(c, steps, s, Advance(env.now - s.now));
    s2 := s1;
    FollowsSame(c, w, s, v);
    if env.reclaim.TookEffect() {
      ReapMarksNothing(c, s1, w, v);
      more, s2 := Go(c, more, s1, Reap);
    }
    var v2 := v.(table := s2.table);
    assert Follows(c, w, s, v, s2, v2);
    more, s' := BatchOn(c, more, s2, w, v2, env, ids);
    FollowsJoin(c, w, s, v, s2, v2, s', Worker.BatchWorld(v2, c.worker, env, ids));
  }

  predicate InOrder(ticks: seq<Worker.Env>, now: int) {
    && (forall i :: 0 <= i < |ticks| ==> now <= ticks[i].now)
    && (forall i, j :: 0 <= i < j < |ticks| ==> ticks[i].now <= ticks[j].now)
  }

  /** Every run of the worker, whatever the database and the endpoints answer it, is a continuation of the
      protocol by that one worker: same table, same actions of every receiver, and counters that count
      its acknowledged marks. */
  lemma {:induction false} WorkerRefinesProtocol(c: Config, steps: seq<Step>, s: State, w: WorkerId, v: Worker.World,
                                                 ticks: seq<Worker.Env>, claims: seq<seq<RowId>>)
    returns (more: seq<Step>, s': State)
    requires At(c, steps, s) && Idle(s, w) && v.table == s.table && InOrder(ticks, s.now)
    requires Worker.MayRun(v, c.worker, ticks, claims)
    ensures steps <= more && At(c, more, s') && Idle(s', w)
    ensures s'.now == if ticks == [] then s.now else ticks[|ticks| - 1].now
    ensures Follows(c, w, s, v, s', Worker.RunWorld(v, c.worker, ticks, claims))
  {
    if ticks == [] {
      more, s' := steps, s;
      FollowsSame(c, w, s, v);
    } else {
      var n := |ticks| - 1;
      var before, s1 := WorkerRefinesProtocol(c, steps, s, w, v, ticks[..n], claims[..n]);
      var v1 := Worker.RunWorld(v, c.worker, ticks[..n], claims[..n]);
      more, s' := TickOn(c, before, s1, w, v1, ticks[n], claims[n]);
      FollowsJoin(c, w, s, v, s1, v1, s', Worker.RunWorld(v, c.worker, ticks, claims));
    }
  }

  // ---------------------------------------------------------------- what carries over

  /** Every row the worker leaves unfinished has retries left, on any table the protocol can reach. */
  lemma WorkerKeepsRetryBound(c: Config, steps: seq<Step>, s: State, w: WorkerId, v: Worker.World,
                              ticks: seq<Worker.Env>, claims: seq<seq<RowId>>, id: RowId)
    requires c.worker.Valid() && At(c, steps, s) && Idle(s, w) && v.table == s.table && InOrder(ticks, s.now)
    requires Worker.MayRun(v, c.worker, ticks, claims)
    requires id < |Worker.RunWorld(v, c.worker, ticks, claims).table|
    ensures HealthyRow(Worker.RunWorld(v, c.worker, ticks, claims).table[id], c.worker.maxRetries)
  {
    var more, s' := WorkerRefinesProtocol(c, steps, s, w, v, ticks, claims);
    OutboxGuarantees.RetryBound(c, more, id);
  }

  lemma {:induction false} HandledIsActed(limit: nat, accepted: seq<RowId>, ids: seq<RowId>, id: RowId)
    requires id in ids || id in accepted
    ensures id in After(limit, accepted, ids)
    decreases |ids|
  {
    if ids != [] {
      HandledIsActed(limit, Receiver.Present(limit, accepted, ids[0]), ids[1..], id);
    }
  }

  lemma {:induction false} SentIsHandled(sends: seq<Worker.Sent>, k: nat)
    requires k < |sends| && !sends[k].answer.Unheard?
    ensures sends[k].id in Handled(sends, sends[k].endpoint)
  {
    if k > 0 {
      SentIsHandled(sends[1..], k - 1);
    }
  }

  /** Every request of the worker that reached its endpoint was acted on there, answered or not. */
  lemma ReachedIsActed(c: Config, w: WorkerId, s: State, v: Worker.World, s': State, v': Worker.World, k: nat)
    requires Follows(c, w, s, v, s', v') && |v.sends| <= k < |v'.sends| && !v'.sends[k].answer.Unheard?
    ensures v'.sends[k].id in Acted(s', v'.sends[k].endpoint)
  {
    var e, sends := v'.sends[k].endpoint, v'.sends[|v.sends|..];
    SentIsHandled(sends, k - |v.sends|);
    HandledIsActed(c.dedup(e), Acted(s, e), Handled(sends, e), v'.sends[k].id);
  }
}

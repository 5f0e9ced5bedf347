/** What a lone worker does to a backlog: the counters balance, they tell the truth about the table,
    and finitely many ticks leave nothing in flight. */
module OutboxDrain {
  import opened Base
  import opened OutboxTable
  import opened OutboxWorker

  // ---------------------------------------------------------------- accounting, in every environment

  /** Rows delivered whose MarkDone did not report success; they are counted nowhere. */
  function UnreportedDone(ids: seq<RowId>, rows: seq<Row>, cfg: Config, env: Env): nat
    requires |rows| == |ids|
  {
    if ids == [] then 0
    else
      var n := |ids| - 1;
      UnreportedDone(ids[..n], rows[..n], cfg, env) +
      (if Delivers(rows[n], ids[n], cfg, env) && !env.mark(ids[n]).Reported() then 1 else 0)
  }

  predicate Balanced(c: Counters) {
    c.failed == c.retried + c.dead
  }

  lemma {:induction false} BatchAccounts(w: World, ids: seq<RowId>, rows: seq<Row>, cfg: Config, env: Env)
    requires |rows| == |ids| && Balanced(w.counters)
    ensures var c, c' := w.counters, ProcessRows(w, ids, rows, cfg, env).counters;
            && Balanced(c')
            && |ids| == (c'.delivered - c.delivered) + (c'.failed - c.failed) + UnreportedDone(ids, rows, cfg, env)
  {
    if ids != [] {
      var n := |ids| - 1;
      BatchAccounts(w, ids[..n], rows[..n], cfg, env);
    }
  }

  lemma {:induction false} RunAccounts(w: World, cfg: Config, ticks: seq<Env>, claims: seq<seq<RowId>>)
    requires MayRun(w, cfg, ticks, claims) && Balanced(w.counters)
    ensures Balanced(RunWorld(w, cfg, ticks, claims).counters)
  {
    if ticks != [] {
      var n := |ticks| - 1;
      RunAccounts(w, cfg, ticks[..n], claims[..n]);
      var w0 := RunWorld(w, cfg, ticks[..n], claims[..n]);
      var t := AfterReclaim(w0.table, cfg, ticks[n]);
      if ticks[n].claim.Reported() {
        var t' := Claimed(t, claims[n], ticks[n].now);
        BatchAccounts(w0.(table := t'), claims[n], RowsAt(t', claims[n]), cfg, ticks[n]);
      }
    }
  }

  /** A dead-letter notice goes out only for a content row that is failed in the committed table. */
  lemma NoticeOnlyWhenDead(w: World, id: RowId, row: Row, cfg: Config, env: Env)
    ensures var w' := ProcessRow(w, id, row, cfg, env);
            w'.notices != w.notices ==>
              && id < |w'.table| && w'.table[id].status == Failed && env.mark(id).Reported()
              && IsContentEvent(row.eventType) && w'.notices == w.notices + [row.payload.tenantId]
              && w'.counters.dead == w.counters.dead + 1
  {
    assert w.notices + [] == w.notices;
  }

  /** And it goes out whenever it should: exactly when the notifier is wired and the attempt that failed was the
      row's last, acknowledged, on a content event whose payload names the tenant. */
  lemma NoticeIff(w: World, id: RowId, row: Row, cfg: Config, env: Env)
    requires id < |w.table|
    ensures ProcessRow(w, id, row, cfg, env).notices ==
              if cfg.notifyWired && HasPrefix(row.eventType, "content.") && row.payload.Fields? && row.payload.tenantId != ""
                 && !Delivers(row, id, cfg, env) && env.mark(id) == Applied && w.table[id].retryCount + 1 >= cfg.maxRetries
              then w.notices + [row.payload.tenantId] else w.notices
  {
    assert w.notices + [] == w.notices;
  }

  // ---------------------------------------------------------------- the backlog

  function Attempts(r: Row, maxRetries: nat): nat {
    if r.status.Terminal() || r.retryCount >= maxRetries then 0 else maxRetries - r.retryCount
  }

  /** Delivery attempts the rows in flight may still consume. */
  function Backlog(t: Table, maxRetries: nat): nat {
    if t == [] then 0 else Backlog(t[..|t| - 1], maxRetries) + Attempts(t[|t| - 1], maxRetries)
  }

  function InStatus(t: Table, s: Status): nat {
    if t == [] then 0 else InStatus(t[..|t| - 1], s) + (if t[|t| - 1].status == s then 1 else 0)
  }

  lemma {:induction false} BacklogUpdate(t: Table, id: RowId, r: Row, max: nat)
    requires id < |t|
    ensures Backlog(t[id := r], max) == Backlog(t, max) - Attempts(t[id], max) + Attempts(r, max)
  {
    var n := |t| - 1;
    if id == n {
      assert t[id := r][..n] == t[..n];
    } else {
      assert t[id := r][..n] == t[..n][id := r];
      BacklogUpdate(t[..n], id, r, max);
    }
  }

  lemma {:induction false} InStatusUpdate(t: Table, id: RowId, r: Row, s: Status)
    requires id < |t|
    ensures InStatus(t[id := r], s) == InStatus(t, s)
              - (if t[id].status == s then 1 else 0) + (if r.status == s then 1 else 0)
  {
    var n := |t| - 1;
    if id == n {
      assert t[id := r][..n] == t[..n];
    } else {
      assert t[id := r][..n] == t[..n][id := r];
      InStatusUpdate(t[..n], id, r, s);
    }
  }

  lemma {:induction false} BacklogSame(t: Table, t': Table, max: nat)
    requires |t| == |t'|
    requires forall i :: 0 <= i < |t| ==> Attempts(t[i], max) == Attempts(t'[i], max)
    ensures Backlog(t, max) == Backlog(t', max)
  {
    if t != [] {
      BacklogSame(t[..|t| - 1], t'[..|t| - 1], max);
    }
  }

  lemma {:induction false} InStatusSame(t: Table, t': Table, s: Status)
    requires |t| == |t'|
    requires forall i :: 0 <= i < |t| ==> (t[i].status == s <==> t'[i].status == s)
    ensures InStatus(t, s) == InStatus(t', s)
  {
    if t != [] {
      InStatusSame(t[..|t| - 1], t'[..|t| - 1], s);
    }
  }

  lemma {:induction false} BacklogZeroIff(t: Table, max: nat)
    requires Healthy(t, max)
    ensures Backlog(t, max) == 0 <==> forall i :: 0 <= i < |t| ==> t[i].status.Terminal()
  {
    if t != [] {
      var n := |t| - 1;
      BacklogZeroIff(t[..n], max);
      assert HealthyRow(t[n], max);
      assert forall i :: 0 <= i < n ==> t[..n][i] == t[i];
    }
  }

  // ---------------------------------------------------------------- reliable ticks make progress

  /** No crash, no mark error, nobody else's locks. */
  ghost predicate Reliable(env: Env) {
    env.reclaim == Applied && env.claim == Applied && env.locked == {} && forall id :: env.mark(id) == Applied
  }

  /** Rows i.. of the batch are still processing; nothing outside the batch is. */
  ghost predicate Remaining(t: Table, ids: seq<RowId>, done: nat) {
    && done <= |ids|
    && Distinct(ids)
    && (forall k :: 0 <= k < |ids| ==> ids[k] < |t|)
    && (forall k :: done <= k < |ids| ==> t[ids[k]].status == Processing)
    && (forall i :: 0 <= i < |t| && t[i].status == Processing ==> exists k :: done <= k < |ids| && ids[k] == i)
  }

  /** What the registry claims about the table, relative to the start of the batch. */
  ghost predicate Truthful(w: World, w': World) {
    && w'.counters.delivered - w.counters.delivered == InStatus(w'.table, Done) - InStatus(w.table, Done)
    && w'.counters.dead - w.counters.dead == InStatus(w'.table, Failed) - InStatus(w.table, Failed)
  }

  lemma OneFewerRemains(t: Table, ids: seq<RowId>, n: nat, t': Table)
    requires n < |ids| && Remaining(t, ids, n) && ids[n] < |t| == |t'|
    requires t' == t[ids[n] := t'[ids[n]]] && t'[ids[n]].status != Processing
    ensures Remaining(t', ids, n + 1)
  {
    forall i | 0 <= i < |t'| && t'[i].status == Processing
      ensures exists k :: n + 1 <= k < |ids| && ids[k] == i
    {
      assert t[i].status == Processing;
      var k :| n <= k < |ids| && ids[k] == i;
    }
  }

  lemma RowProgress(w: World, ids: seq<RowId>, n: nat, row: Row, cfg: Config, env: Env)
    requires cfg.Valid() && Reliable(env) && Healthy(w.table, cfg.maxRetries)
    requires n < |ids| && Remaining(w.table, ids, n)
    ensures var w' := ProcessRow(w, ids[n], row, cfg, env);
            && Healthy(w'.table, cfg.maxRetries)
            && Remaining(w'.table, ids, n + 1)
            && Backlog(w'.table, cfg.maxRetries) < Backlog(w.table, cfg.maxRetries)
            && Truthful(w, w')
  {
    var w' := ProcessRow(w, ids[n], row, cfg, env);
    var id := ids[n];
    assert HealthyRow(w.table[id], cfg.maxRetries);
    assert w'.table == w.table[id := w'.table[id]];
    BacklogUpdate(w.table, id, w'.table[id], cfg.maxRetries);
    InStatusUpdate(w.table, id, w'.table[id], Done);
    InStatusUpdate(w.table, id, w'.table[id], Failed);
    OneFewerRemains(w.table, ids, n, w'.table);
  }

  lemma {:induction false} BatchProgress(w: World, ids: seq<RowId>, rows: seq<Row>, n: nat, cfg: Config, env: Env)
    requires cfg.Valid() && Reliable(env) && Healthy(w.table, cfg.maxRetries)
    requires |rows| == |ids| && n <= |ids| && Remaining(w.table, ids, 0)
    ensures var w' := ProcessRows(w, ids[..n], rows[..n], cfg, env);
            && Healthy(w'.table, cfg.maxRetries)
            && Remaining(w'.table, ids, n)
            && Backlog(w'.table, cfg.maxRetries) + n <= Backlog(w.table, cfg.maxRetries)
            && Truthful(w, w')
  {
    if n > 0 {
      BatchProgress(w, ids, rows, n - 1, cfg, env);
      var w' := ProcessRows(w, ids[..n - 1], rows[..n - 1], cfg, env);
      RowProgress(w', ids, n - 1, rows[n - 1], cfg, env);
      OneMoreRow(w, ids, rows, n, cfg, env);
    }
  }

  /** Every processing row is one that a reclaim at `now` returns to pending. */
  ghost predicate Abandoned(t: Table, cfg: Config, now: int) {
    forall i :: 0 <= i < |t| && t[i].status == Processing ==> Stale(t[i], now, cfg.staleThreshold)
  }

  lemma ReclaimFrees(t: Table, cfg: Config, env: Env)
    requires Reliable(env) && Healthy(t, cfg.maxRetries) && Abandoned(t, cfg, env.now)
    ensures var t' := AfterReclaim(t, cfg, env);
            && Healthy(t', cfg.maxRetries)
            && (forall i :: 0 <= i < |t'| ==> t'[i].status != Processing)
            && Backlog(t', cfg.maxRetries) == Backlog(t, cfg.maxRetries)
            && InStatus(t', Done) == InStatus(t, Done) && InStatus(t', Failed) == InStatus(t, Failed)
  {
    var t' := AfterReclaim(t, cfg, env);
    assert forall i :: 0 <= i < |t| ==> HealthyRow(t[i], cfg.maxRetries);
    BacklogSame(t, t', cfg.maxRetries);
    InStatusSame(t, t', Done);
    InStatusSame(t, t', Failed);
  }

  lemma ClaimTakes(t: Table, ids: seq<RowId>, limit: nat, now: int, max: nat)
    requires Healthy(t, max) && MayClaim(t, limit, {}, ids)
    requires forall i :: 0 <= i < |t| ==> t[i].status != Processing
    ensures var t' := Claimed(t, ids, now);
            && Healthy(t', max)
            && Remaining(t', ids, 0)
            && Backlog(t', max) == Backlog(t, max)
            && InStatus(t', Done) == InStatus(t, Done) && InStatus(t', Failed) == InStatus(t, Failed)
    ensures limit > 0 && Backlog(t, max) > 0 ==> |ids| > 0
  {
    var t' := Claimed(t, ids, now);
    assert forall i :: 0 <= i < |t| ==> HealthyRow(t[i], max);
    assert forall i :: 0 <= i < |t| && i in ids ==> t[i].status == Pending;
    BacklogSame(t, t', max);
    InStatusSame(t, t', Done);
    InStatusSame(t, t', Failed);
    if limit > 0 && Backlog(t, max) > 0 {
      BacklogZeroIff(t, max);
      var y: RowId :| y < |t| && !t[y].status.Terminal();
      assert Claimable(t, {}, y);
    }
  }

  /** One reliable tick leaves nothing processing, counts truthfully, and makes the backlog strictly
      smaller unless it was already empty. */
  lemma TickProgress(w: World, cfg: Config, env: Env, ids: seq<RowId>)
    requires cfg.Valid() && Reliable(env) && Healthy(w.table, cfg.maxRetries)
    requires Abandoned(w.table, cfg, env.now) && MayTick(w.table, cfg, env, ids)
    ensures var w' := TickWorld(w, cfg, env, ids);
            && |w'.table| == |w.table|
            && Healthy(w'.table, cfg.maxRetries)
            && (forall i :: 0 <= i < |w'.table| ==> w'.table[i].status != Processing)
            && Truthful(w, w')
            && (Backlog(w.table, cfg.maxRetries) > 0 ==>
                  Backlog(w'.table, cfg.maxRetries) < Backlog(w.table, cfg.maxRetries))
            && (Backlog(w.table, cfg.maxRetries) == 0 ==> Backlog(w'.table, cfg.maxRetries) == 0)
  {
    var t := AfterReclaim(w.table, cfg, env);
    ReclaimFrees(w.table, cfg, env);
    ClaimTakes(t, ids, cfg.limit, env.now, cfg.maxRetries);
    var claimed := w.(table := Claimed(t, ids, env.now));
    ClaimedBatchProgress(claimed, ids, cfg, env);
    TickIsABatch(w, cfg, env, ids);
  }

  lemma TickIsABatch(w: World, cfg: Config, env: Env, ids: seq<RowId>)
    requires Reliable(env) && MayTick(w.table, cfg, env, ids)
    ensures var claimed := w.(table := Claimed(AfterReclaim(w.table, cfg, env), ids, env.now));
            TickWorld(w, cfg, env, ids) == ProcessRows(claimed, ids, RowsAt(claimed.table, ids), cfg, env)
  {
  }

  lemma ClaimedBatchProgress(w: World, ids: seq<RowId>, cfg: Config, env: Env)
    requires cfg.Valid() && Reliable(env) && Healthy(w.table, cfg.maxRetries) && Remaining(w.table, ids, 0)
    ensures var w' := ProcessRows(w, ids, RowsAt(w.table, ids), cfg, env);
            && |w'.table| == |w.table|
            && Healthy(w'.table, cfg.maxRetries)
            && (forall i :: 0 <= i < |w'.table| ==> w'.table[i].status != Processing)
            && Backlog(w'.table, cfg.maxRetries) + |ids| <= Backlog(w.table, cfg.maxRetries)
            && Truthful(w, w')
  {
    var rows := RowsAt(w.table, ids);
    BatchProgress(w, ids, rows, |ids|, cfg, env);
    assert ids[..|ids|] == ids && rows[..|ids|] == rows;
  }

  ghost predicate AllReliable(ticks: seq<Env>) {
    forall i :: 0 <= i < |ticks| ==> Reliable(ticks[i])
  }

  lemma {:induction false} RunProgress(w: World, cfg: Config, ticks: seq<Env>, claims: seq<seq<RowId>>)
    requires cfg.Valid() && AllReliable(ticks) && Healthy(w.table, cfg.maxRetries)
    requires |ticks| > 0 ==> Abandoned(w.table, cfg, ticks[0].now)
    requires MayRun(w, cfg, ticks, claims)
    ensures var w' := RunWorld(w, cfg, ticks, claims);
            && |w'.table| == |w.table|
            && Healthy(w'.table, cfg.maxRetries)
            && (|ticks| > 0 ==> forall i :: 0 <= i < |w'.table| ==> w'.table[i].status != Processing)
            && Truthful(w, w')
            && Backlog(w'.table, cfg.maxRetries) <= (if |ticks| >= Backlog(w.table, cfg.maxRetries) then 0
                                                     else Backlog(w.table, cfg.maxRetries) - |ticks|)
  {
    if ticks != [] {
      var n := |ticks| - 1;
      assert AllReliable(ticks[..n]) && Reliable(ticks[n]);
      RunProgress(w, cfg, ticks[..n], claims[..n]);
      TickProgress(RunWorld(w, cfg, ticks[..n], claims[..n]), cfg, ticks[n], claims[n]);
    }
  }

  /** Drain terminates: as many reliable ticks as the backlog has attempts leave every row done or failed,
      and by then the registry's delivered and dead counters have grown by exactly the rows that became
      done and failed. */
  lemma Drained(w: World, cfg: Config, ticks: seq<Env>, claims: seq<seq<RowId>>)
    requires cfg.Valid() && AllReliable(ticks) && Healthy(w.table, cfg.maxRetries)
    requires |ticks| > 0 ==> Abandoned(w.table, cfg, ticks[0].now)
    requires MayRun(w, cfg, ticks, claims)
    requires |ticks| >= Backlog(w.table, cfg.maxRetries)
    ensures var w' := RunWorld(w, cfg, ticks, claims);
            && |w'.table| == |w.table|
            && (forall i :: 0 <= i < |w'.table| ==> w'.table[i].status.Terminal())
            && Truthful(w, w')
  {
    RunProgress(w, cfg, ticks, claims);
    BacklogZeroIff(RunWorld(w, cfg, ticks, claims).table, cfg.maxRetries);
  }
}

/** The delivery worker: claim a batch, deliver each row, mark it, count it. */
module OutboxWorker {
  import opened Base
  import opened OutboxTable
  import Uuids

  // ---------------------------------------------------------------- routing

  predicate IsUserEvent(eventType: string) {
    eventType == "user.created" || eventType == "user.updated" || eventType == "user.deleted"
  }

  predicate IsContentEvent(eventType: string) {
    HasPrefix(eventType, "content.")
  }

  datatype Route = ToMcp | ToTenant(tenantId: string) | NoRoute

  function ContentTenant(p: Payload): Option<string> {
    if p.Fields? && p.tenantId != "" then Some(p.tenantId) else None
  }

  /** Where deliver sends a row; NoRoute is every refusal before anything is sent. */
  function RouteOf(row: Row, webhooksWired: bool): Route {
    if IsUserEvent(row.eventType) then
      if row.payload.Fields? && Uuids.Parse(row.payload.userId).Some? then ToMcp else NoRoute
    else if IsContentEvent(row.eventType) then
      var tenant := ContentTenant(row.payload);
      if webhooksWired && tenant.Some? then ToTenant(tenant.value) else NoRoute
    else NoRoute
  }

  // ---------------------------------------------------------------- one tick, as a function

  type Endpoint = string

  datatype Config = Config(limit: nat, maxRetries: nat, staleThreshold: int, webhooksWired: bool, notifyWired: bool) {
    predicate Valid() { limit > 0 && maxRetries > 0 && staleThreshold > 0 }
  }

  /** Everything the worker does not decide during one tick. */
  datatype Env = Env(
    now: int,
    locked: set<RowId>,
    reclaim: DbOutcome,
    claim: DbOutcome,
    upsert: RowId -> bool,
    directory: string -> Option<seq<Endpoint>>,
    send: (Endpoint, RowId) -> SendOutcome,
    mark: RowId -> DbOutcome)

  datatype Counters = Counters(delivered: nat, failed: nat, retried: nat, dead: nat)

  /** One request to an endpoint and what came of it. */
  datatype Sent = Sent(endpoint: Endpoint, id: RowId, answer: SendOutcome)

  datatype World = World(
    table: Table,
    counters: Counters,
    upserts: seq<RowId>,
    sends: seq<Sent>,
    notices: seq<string>)  // the tenant of each dead-letter notice

  /** The requests of one fan-out: in order, up to the first that does not return success. */
  function Fanout(endpoints: seq<Endpoint>, id: RowId, send: (Endpoint, RowId) -> SendOutcome): seq<Sent> {
    if endpoints == [] then []
    else
      var answer := send(endpoints[0], id);
      [Sent(endpoints[0], id, answer)] + (if answer.Heard? then Fanout(endpoints[1..], id, send) else [])
  }

  lemma JoinRight<T>(a: seq<T>, b: seq<T>, c: seq<T>)
    ensures a + b + c == a + (b + c) && a + (b + []) == a + b
  {
  }

  /** Does deliver return nil for this row? */
  predicate Delivers(row: Row, id: RowId, cfg: Config, env: Env) {
    match RouteOf(row, cfg.webhooksWired)
    case NoRoute => false
    case ToMcp => env.upsert(id)
    case ToTenant(tenant) =>
      var listed := env.directory(tenant);
      listed.Some? && forall k :: 0 <= k < |listed.value| ==> env.send(listed.value[k], id).Heard?
  }

  function Upserted(row: Row, id: RowId, cfg: Config): seq<RowId> {
    if RouteOf(row, cfg.webhooksWired).ToMcp? then [id] else []
  }

  function SentTo(row: Row, id: RowId, cfg: Config, env: Env): seq<Sent> {
    match RouteOf(row, cfg.webhooksWired)
    case ToTenant(tenant) =>
      var listed := env.directory(tenant);
      if listed.Some? then Fanout(listed.value, id, env.send) else []
    case _ => []
  }

  function Notice(row: Row, cfg: Config): seq<string> {
    if cfg.notifyWired && IsContentEvent(row.eventType) && ContentTenant(row.payload).Some?
    then [ContentTenant(row.payload).value] else []
  }

  const DELIVERY_ERROR := "delivery failed"

  /** One iteration of processBatch. */
  function ProcessRow(w: World, id: RowId, row: Row, cfg: Config, env: Env): (w': World)
    ensures |w'.table| == |w.table|
  {
    var mark := env.mark(id);
    var out := w.(upserts := w.upserts + Upserted(row, id, cfg), sends := w.sends + SentTo(row, id, cfg, env));
    if Delivers(row, id, cfg, env) then
      out.(table := if mark.TookEffect() then MarkedDone(w.table, id, env.now) else w.table,
           counters := if mark.Reported() then w.counters.(delivered := w.counters.delivered + 1) else w.counters)
    else
      var table := if mark.TookEffect() then MarkedFailed(w.table, id, DELIVERY_ERROR, cfg.maxRetries) else w.table;
      var dead := mark.Reported() && id < |table| && table[id].status == Failed;
      out.(table := table,
           counters := w.counters.(failed := w.counters.failed + 1,
                                   dead := w.counters.dead + (if dead then 1 else 0),
                                   retried := w.counters.retried + (if dead then 0 else 1)),
           notices := w.notices + (if dead then Notice(row, cfg) else []))
  }

  function ProcessRows(w: World, ids: seq<RowId>, rows: seq<Row>, cfg: Config, env: Env): (w': World)
    requires |rows| == |ids|
    ensures |w'.table| == |w.table|
  {
    if ids == [] then w
    else
      var n := |ids| - 1;
      ProcessRow(ProcessRows(w, ids[..n], rows[..n], cfg, env), ids[n], rows[n], cfg, env)
  }

  lemma OneMoreRow(w: World, ids: seq<RowId>, rows: seq<Row>, n: nat, cfg: Config, env: Env)
    requires |rows| == |ids| && 0 < n <= |ids|
    ensures ProcessRows(w, ids[..n], rows[..n], cfg, env) ==
              ProcessRow(ProcessRows(w, ids[..n - 1], rows[..n - 1], cfg, env), ids[n - 1], rows[n - 1], cfg, env)
  {
    assert ids[..n][..n - 1] == ids[..n - 1] && rows[..n][..n - 1] == rows[..n - 1];
  }

  function AfterReclaim(t: Table, cfg: Config, env: Env): (t': Table)
    ensures |t'| == |t|
  {
    if env.reclaim.TookEffect() then Reclaimed(t, env.now, cfg.staleThreshold) else t
  }

  /** May the claim statement choose exactly `ids`? A statement without effect chooses nothing. */
  ghost predicate MayBatch(t: Table, cfg: Config, env: Env, ids: seq<RowId>) {
    if env.claim.TookEffect() then MayClaim(t, cfg.limit, env.locked, ids) else ids == []
  }

  function BatchWorld(w: World, cfg: Config, env: Env, ids: seq<RowId>): World
    requires forall i :: 0 <= i < |ids| ==> ids[i] < |w.table|
  {
    if !env.claim.TookEffect() then w
    else
      var w' := w.(table := Claimed(w.table, ids, env.now));
      if env.claim.Reported() then ProcessRows(w', ids, RowsAt(w'.table, ids), cfg, env) else w'
  }

  ghost predicate MayTick(t: Table, cfg: Config, env: Env, ids: seq<RowId>) {
    MayBatch(AfterReclaim(t, cfg, env), cfg, env, ids)
  }

  /** One tick of Run: reclaim stale rows, then process a batch. */
  ghost function TickWorld(w: World, cfg: Config, env: Env, ids: seq<RowId>): World
    requires MayTick(w.table, cfg, env, ids)
  {
    BatchWorld(w.(table := AfterReclaim(w.table, cfg, env)), cfg, env, ids)
  }

  // ---------------------------------------------------------------- the worker itself

  class Worker {
    const repo: PostgresRepository
    const cfg: Config
    var counters: Counters
    var upserts: seq<RowId>
    var sends: seq<Sent>
    var notices: seq<string>

    ghost function Snapshot(): World
      reads this, repo
    {
      World(repo.table, counters, upserts, sends, notices)
    }

    /** Non-positive settings fall back to 10 rows, 5 attempts and 60 seconds. */
    constructor (repo: PostgresRepository, batchSize: int, maxRetries: int, staleThreshold: int,
                 webhooksWired: bool, notifyWired: bool)
      ensures this.repo == repo && cfg.Valid()
      ensures batchSize > 0 ==> cfg.limit == batchSize
      ensures maxRetries > 0 ==> cfg.maxRetries == maxRetries
      ensures staleThreshold > 0 ==> cfg.staleThreshold == staleThreshold
      ensures batchSize <= 0 ==> cfg.limit == 10
      ensures maxRetries <= 0 ==> cfg.maxRetries == 5
      ensures staleThreshold <= 0 ==> cfg.staleThreshold == 60
      ensures Snapshot() == World(repo.table, Counters(0, 0, 0, 0), [], [], [])
    {
      this.repo := repo;
      cfg := Config(if batchSize <= 0 then 10 else batchSize,
                    if maxRetries <= 0 then 5 else maxRetries,
                    if staleThreshold <= 0 then 60 else staleThreshold,
                    webhooksWired, notifyWired);
      counters := Counters(0, 0, 0, 0);
      upserts, sends, notices := [], [], [];
    }

    method DeliverContent(row: Row, id: RowId, env: Env) returns (ok: bool)
      requires IsContentEvent(row.eventType) && !IsUserEvent(row.eventType)
      modifies this`sends
      ensures ok == Delivers(row, id, cfg, env)
      ensures sends == old(sends) + SentTo(row, id, cfg, env)
    {
      if !cfg.webhooksWired {
        return false;
      }
      var tenant := ContentTenant(row.payload);
      if tenant.None? {
        return false;
      }
      var listed := env.directory(tenant.value);
      if listed.None? {
        return false;
      }
      var endpoints := listed.value;
      for k := 0 to |endpoints|
        invariant sends + Fanout(endpoints[k..], id, env.send) == old(sends) + Fanout(endpoints, id, env.send)
        invariant forall j :: 0 <= j < k ==> env.send(endpoints[j], id).Heard?
      {
        var answer := env.send(endpoints[k], id);
        JoinRight(sends, [Sent(endpoints[k], id, answer)], Fanout(endpoints[k + 1..], id, env.send));
        sends := sends + [Sent(endpoints[k], id, answer)];
        if !answer.Heard? {
          return false;
        }
      }
      return true;
    }

    method Deliver(row: Row, id: RowId, env: Env) returns (ok: bool)
      modifies this`sends, this`upserts
      ensures ok == Delivers(row, id, cfg, env)
      ensures sends == old(sends) + SentTo(row, id, cfg, env)
      ensures upserts == old(upserts) + Upserted(row, id, cfg)
    {
      if IsUserEvent(row.eventType) {
        if row.payload.Malformed? || Uuids.Parse(row.payload.userId).None? {
          return false;
        }
        upserts := upserts + [id];
        return env.upsert(id);
      }
      if IsContentEvent(row.eventType) {
        ok := DeliverContent(row, id, env);
        return ok;
      }
      return false;
    }

    method NotifyDeadLetter(row: Row)
      modifies this`notices
      ensures notices == old(notices) + Notice(row, cfg)
    {
      if !cfg.notifyWired || !IsContentEvent(row.eventType) {
        return;
      }
      var tenant := ContentTenant(row.payload);
      if tenant.None? {
        return;
      }
      notices := notices + [tenant.value];
    }

    /** The body of processBatch's loop. */
    method Process(id: RowId, row: Row, env: Env)
      modifies this, repo
      ensures Snapshot() == ProcessRow(old(Snapshot()), id, row, cfg, env)
    {
      var ok := Deliver(row, id, env);
      var mark := env.mark(id);
      if !ok {
        var dead := None;
        if mark.TookEffect() {
          dead := repo.MarkFailedWithRetry(id, DELIVERY_ERROR, cfg.maxRetries);
        }
        if mark.Reported() && dead == Some(true) {
          counters := counters.(dead := counters.dead + 1);
          NotifyDeadLetter(row);
        } else {
          counters := counters.(retried := counters.retried + 1);
        }
        counters := counters.(failed := counters.failed + 1);
        return;
      }
      if mark.TookEffect() {
        repo.MarkDone(id, env.now);
      }
      if mark.Reported() {
        counters := counters.(delivered := counters.delivered + 1);
      }
    }

    method ProcessBatch(env: Env) returns (ghost ids: seq<RowId>)
      modifies this, repo
      ensures MayBatch(old(repo.table), cfg, env, ids)
      ensures Snapshot() == BatchWorld(old(Snapshot()), cfg, env, ids)
    {
      if !env.claim.TookEffect() {
        return [];
      }
      var claimed, rows := repo.ClaimPending(cfg.limit, env.locked, env.now);
      ids := claimed;
      if !env.claim.Reported() {
        return;
      }
      ghost var start := Snapshot();
      assert rows == RowsAt(repo.table, ids);
      for i := 0 to |claimed|
        invariant Snapshot() == ProcessRows(start, ids[..i], rows[..i], cfg, env)
      {
        Process(claimed[i], rows[i], env);
        OneMoreRow(start, ids, rows, i + 1, cfg, env);
      }
      assert ids[..|ids|] == ids && rows[..|ids|] == rows;
    }

    /** One firing of Run's ticker. */
    method Tick(env: Env) returns (ghost ids: seq<RowId>)
      modifies this, repo
      ensures MayTick(old(repo.table), cfg, env, ids)
      ensures Snapshot() == TickWorld(old(Snapshot()), cfg, env, ids)
    {
      if env.reclaim.TookEffect() {
        var _ := repo.ReclaimStale(cfg.staleThreshold, env.now);
      }
      ids := ProcessBatch(env);
    }

    /** Run until its context is cancelled: one environment per tick. */
    method Run(ticks: seq<Env>) returns (ghost claims: seq<seq<RowId>>)
      modifies this, repo
      ensures MayRun(old(Snapshot()), cfg, ticks, claims)
      ensures Snapshot() == RunWorld(old(Snapshot()), cfg, ticks, claims)
    {
      claims := [];
      for i := 0 to |ticks|
        invariant MayRun(old(Snapshot()), cfg, ticks[..i], claims)
        invariant Snapshot() == RunWorld(old(Snapshot()), cfg, ticks[..i], claims)
      {
        ghost var ids := Tick(ticks[i]);
        assert ticks[..i + 1][..i] == ticks[..i] && (claims + [ids])[..i] == claims;
        claims := claims + [ids];
      }
      assert ticks[..|ticks|] == ticks;
    }
  }

  ghost predicate MayRun(w: World, cfg: Config, ticks: seq<Env>, claims: seq<seq<RowId>>)
    decreases |ticks|, 0
  {
    && |claims| == |ticks|
    && (ticks == [] ||
        var n := |ticks| - 1;
        MayRun(w, cfg, ticks[..n], claims[..n]) &&
        MayTick(RunWorld(w, cfg, ticks[..n], claims[..n]).table, cfg, ticks[n], claims[n]))
  }

  ghost function RunWorld(w: World, cfg: Config, ticks: seq<Env>, claims: seq<seq<RowId>>): World
    requires MayRun(w, cfg, ticks, claims)
    decreases |ticks|, 1
  {
    if ticks == [] then w
    else
      var n := |ticks| - 1;
      TickWorld(RunWorld(w, cfg, ticks[..n], claims[..n]), cfg, ticks[n], claims[n])
  }
}

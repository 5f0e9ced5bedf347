/** What becomes of each row once a lone worker has drained the table: delivered exactly once to exactly the
    right place, or tried until its attempts are used up and never sent anywhere. */
module OutboxFate {
  import opened Base
  import Uuids
  import opened OutboxTable
  import opened OutboxWorker
  import opened OutboxDrain

  /** The requests about one row, in order. */
  function SendsOf(sends: seq<Sent>, id: RowId): seq<Sent> {
    if sends == [] then []
    else SendsOf(sends[..|sends| - 1], id) + (if sends[|sends| - 1].id == id then [sends[|sends| - 1]] else [])
  }

  lemma {:induction false} SendsOfJoin(a: seq<Sent>, b: seq<Sent>, id: RowId)
    ensures SendsOf(a + b, id) == SendsOf(a, id) + SendsOf(b, id)
  {
    if b == [] {
      assert a + b == a;
    } else {
      assert (a + b)[..|a + b| - 1] == a + b[..|b| - 1];
      SendsOfJoin(a, b[..|b| - 1], id);
    }
  }

  lemma {:induction false} SendsOfOneRow(sends: seq<Sent>, row: RowId, id: RowId)
    requires forall k :: 0 <= k < |sends| ==> sends[k].id == row
    ensures SendsOf(sends, id) == if row == id then sends else []
  {
    if sends != [] {
      SendsOfOneRow(sends[..|sends| - 1], row, id);
    }
  }

  lemma {:induction false} FanoutIsAboutItsRow(endpoints: seq<Endpoint>, id: RowId, send: (Endpoint, RowId) -> SendOutcome)
    ensures forall k :: 0 <= k < |Fanout(endpoints, id, send)| ==> Fanout(endpoints, id, send)[k].id == id
  {
    if endpoints != [] {
      FanoutIsAboutItsRow(endpoints[1..], id, send);
    }
  }

  lemma CountLast(s: seq<RowId>, x: RowId, id: RowId)
    ensures Count(s + [x], id) == Count(s, id) + (if x == id then 1 else 0)
  {
    assert (s + [x])[..|s|] == s;
  }

  /** What one delivery attempt sends about a row: to the other system and to endpoints. */
  datatype Traffic = Traffic(upserts: nat, sends: seq<Sent>)

  function TrafficOf(w: World, id: RowId): Traffic {
    Traffic(Count(w.upserts, id), SendsOf(w.sends, id))
  }

  function Attempt(row: Row, id: RowId, cfg: Config, env: Env): Traffic {
    Traffic(|Upserted(row, id, cfg)|, SentTo(row, id, cfg, env))
  }

  function Plus(a: Traffic, b: Traffic): Traffic { Traffic(a.upserts + b.upserts, a.sends + b.sends) }

  const NOTHING := Traffic(0, [])

  lemma SentToIsAboutItsRow(row: Row, x: RowId, cfg: Config, env: Env, id: RowId)
    ensures SendsOf(SentTo(row, x, cfg, env), id) == if x == id then SentTo(row, x, cfg, env) else []
  {
    var route := RouteOf(row, cfg.webhooksWired);
    if route.ToTenant? && env.directory(route.tenantId).Some? {
      FanoutIsAboutItsRow(env.directory(route.tenantId).value, x, env.send);
    }
    SendsOfOneRow(SentTo(row, x, cfg, env), x, id);
  }

  lemma UpsertedCounts(upserts: seq<RowId>, row: Row, x: RowId, cfg: Config, id: RowId)
    ensures Count(upserts + Upserted(row, x, cfg), id) == Count(upserts, id) + (if x == id then |Upserted(row, x, cfg)| else 0)
  {
    CountLast(upserts, x, id);
    assert upserts + [] == upserts;
  }

  lemma ProcessTraffic(w: World, x: RowId, row: Row, cfg: Config, env: Env, id: RowId)
    ensures TrafficOf(ProcessRow(w, x, row, cfg, env), id) ==
              if x == id then Plus(TrafficOf(w, id), Attempt(row, id, cfg, env)) else TrafficOf(w, id)
  {
    var w' := ProcessRow(w, x, row, cfg, env);
    assert w'.upserts == w.upserts + Upserted(row, x, cfg) && w'.sends == w.sends + SentTo(row, x, cfg, env);
    SendsOfJoin(w.sends, SentTo(row, x, cfg, env), id);
    SentToIsAboutItsRow(row, x, cfg, env, id);
    UpsertedCounts(w.upserts, row, x, cfg, id);
    assert SendsOf(w.sends, id) + [] == SendsOf(w.sends, id);
  }

  lemma SameEventSameDelivery(a: Row, b: Row, id: RowId, cfg: Config, env: Env)
    requires SameEvent(a, b)
    ensures Delivers(a, id, cfg, env) == Delivers(b, id, cfg, env) && Attempt(a, id, cfg, env) == Attempt(b, id, cfg, env)
  {
  }

  // ---------------------------------------------------------------- a row that can be delivered

  /** From w0 to w the row was attempted once, with this traffic, and is done, or not yet. */
  ghost predicate Underway(w0: World, w: World, id: RowId, mail: Traffic) {
    && id < |w0.table| && id < |w.table| && SameEvent(w0.table[id], w.table[id])
    && w.table[id].status != Failed
    && TrafficOf(w, id) == if w.table[id].status == Done then Plus(TrafficOf(w0, id), mail) else TrafficOf(w0, id)
  }

  /** Every attempt succeeds and looks the same. */
  ghost predicate AlwaysDelivers(row: Row, id: RowId, cfg: Config, ticks: seq<Env>, mail: Traffic) {
    forall i :: 0 <= i < |ticks| ==> Delivers(row, id, cfg, ticks[i]) && Attempt(row, id, cfg, ticks[i]) == mail
  }

  lemma ProcessOn(w0: World, w: World, x: RowId, row: Row, cfg: Config, env: Env, id: RowId, mail: Traffic)
    requires Reliable(env) && x < |w.table| && Underway(w0, w, id, mail)
    requires x == id ==> w.table[id].status == Processing && SameEvent(row, w0.table[id])
                         && Delivers(w0.table[id], id, cfg, env) && Attempt(w0.table[id], id, cfg, env) == mail
    ensures Underway(w0, ProcessRow(w, x, row, cfg, env), id, mail)
    ensures ProcessRow(w, x, row, cfg, env).table[id].status == if x == id then Done else w.table[id].status
  {
    ProcessTraffic(w, x, row, cfg, env, id);
    if x == id {
      SameEventSameDelivery(row, w0.table[id], id, cfg, env);
    }
  }

  /** The rows claimed are distinct, and their copies are of the events in the table. */
  ghost predicate Batch(t: Table, ids: seq<RowId>, rows: seq<Row>) {
    && |rows| == |ids| && Distinct(ids)
    && forall k :: 0 <= k < |ids| ==> ids[k] < |t| && t[ids[k]].status == Processing && SameEvent(rows[k], t[ids[k]])
  }

  lemma BatchFront(t: Table, ids: seq<RowId>, rows: seq<Row>, front: seq<RowId>, frontRows: seq<Row>)
    requires Batch(t, ids, rows) && ids != [] && front == ids[..|ids| - 1] && frontRows == rows[..|ids| - 1]
    ensures Batch(t, front, frontRows) && ids[|ids| - 1] !in front
    ensures forall x :: x in ids <==> x in front || x == ids[|ids| - 1]
  {
    assert ids == front + [ids[|ids| - 1]];
  }

  lemma {:induction false} RowsOn(w0: World, w: World, ids: seq<RowId>, rows: seq<Row>, cfg: Config, env: Env,
                                  id: RowId, mail: Traffic)
    requires Reliable(env) && Batch(w.table, ids, rows) && Underway(w0, w, id, mail)
    requires Delivers(w0.table[id], id, cfg, env) && Attempt(w0.table[id], id, cfg, env) == mail
    ensures var w' := ProcessRows(w, ids, rows, cfg, env);
            Underway(w0, w', id, mail) && w'.table[id].status == if id in ids then Done else w.table[id].status
  {
    if ids != [] {
      var n := |ids| - 1;
      BatchFront(w.table, ids, rows, ids[..n], rows[..n]);
      RowsOn(w0, w, ids[..n], rows[..n], cfg, env, id, mail);
      ProcessOn(w0, ProcessRows(w, ids[..n], rows[..n], cfg, env), ids[n], rows[n], cfg, env, id, mail);
    }
  }

  lemma ClaimedIsABatch(t: Table, limit: nat, locked: set<RowId>, ids: seq<RowId>, now: int)
    requires MayClaim(t, limit, locked, ids)
    ensures Batch(Claimed(t, ids, now), ids, RowsAt(Claimed(t, ids, now), ids))
  {
    forall k | 0 <= k < |ids| ensures ids[k] < |t| && Claimed(t, ids, now)[ids[k]].status == Processing {
      assert Claimable(t, locked, ids[k]);
    }
  }

  lemma ClaimOn(w0: World, w: World, cfg: Config, env: Env, ids: seq<RowId>, id: RowId, mail: Traffic)
    requires Reliable(env) && MayTick(w.table, cfg, env, ids) && Underway(w0, w, id, mail)
    ensures var claimed := w.(table := Claimed(AfterReclaim(w.table, cfg, env), ids, env.now));
            Underway(w0, claimed, id, mail) && Batch(claimed.table, ids, RowsAt(claimed.table, ids))
  {
    var t := AfterReclaim(w.table, cfg, env);
    ClaimedIsABatch(t, cfg.limit, env.locked, ids, env.now);
    assert id in ids ==> Claimable(t, env.locked, id);
  }

  lemma TickOn(w0: World, w: World, cfg: Config, env: Env, ids: seq<RowId>, id: RowId, mail: Traffic)
    requires Reliable(env) && MayTick(w.table, cfg, env, ids) && Underway(w0, w, id, mail)
    requires Delivers(w0.table[id], id, cfg, env) && Attempt(w0.table[id], id, cfg, env) == mail
    ensures Underway(w0, TickWorld(w, cfg, env, ids), id, mail)
  {
    TickIsABatch(w, cfg, env, ids);
    ClaimOn(w0, w, cfg, env, ids, id, mail);
    var claimed := w.(table := Claimed(AfterReclaim(w.table, cfg, env), ids, env.now));
    RowsOn(w0, claimed, ids, RowsAt(claimed.table, ids), cfg, env, id, mail);
  }

  lemma {:induction false} RunOn(w: World, cfg: Config, ticks: seq<Env>, claims: seq<seq<RowId>>, id: RowId, mail: Traffic)
    requires MayRun(w, cfg, ticks, claims) && AllReliable(ticks)
    requires id < |w.table| && !w.table[id].status.Terminal() && AlwaysDelivers(w.table[id], id, cfg, ticks, mail)
    ensures Underway(w, RunWorld(w, cfg, ticks, claims), id, mail)
  {
    if ticks != [] {
      var n := |ticks| - 1;
      assert AllReliable(ticks[..n]) && Reliable(ticks[n]);
      assert AlwaysDelivers(w.table[id], id, cfg, ticks[..n], mail);
      RunOn(w, cfg, ticks[..n], claims[..n], id, mail);
      TickOn(w, RunWorld(w, cfg, ticks[..n], claims[..n]), cfg, ticks[n], claims[n], id, mail);
    }
  }

  // ---------------------------------------------------------------- a row that cannot

  /** The row is still being tried, or its attempts are used up to the last one; sent says whether anything may
      have been sent about it. */
  ghost predicate Struggling(w0: World, w: World, id: RowId, max: nat, sent: bool) {
    && id < |w0.table| && id < |w.table| && SameEvent(w0.table[id], w.table[id])
    && w.table[id].status != Done
    && (if w.table[id].status == Failed then w.table[id].retryCount == max else w.table[id].retryCount < max)
    && (sent || TrafficOf(w, id) == TrafficOf(w0, id))
  }

  ghost predicate NeverDelivers(row: Row, id: RowId, cfg: Config, ticks: seq<Env>, sent: bool) {
    forall i :: 0 <= i < |ticks| ==> !Delivers(row, id, cfg, ticks[i]) && (sent || Attempt(row, id, cfg, ticks[i]) == NOTHING)
  }

  lemma OtherRowsStay(w: World, x: RowId, row: Row, cfg: Config, env: Env, id: RowId)
    requires id < |w.table| && x != id
    ensures ProcessRow(w, x, row, cfg, env).table[id] == w.table[id]
  {
  }

  lemma OwnAttemptFails(w: World, id: RowId, row: Row, cfg: Config, env: Env)
    requires Reliable(env) && id < |w.table| && !Delivers(row, id, cfg, env)
    ensures ProcessRow(w, id, row, cfg, env).table[id] == FailedRow(w.table[id], DELIVERY_ERROR, cfg.maxRetries)
  {
  }

  lemma NothingSent(w: World, id: RowId, row: Row, cfg: Config, env: Env)
    requires Attempt(row, id, cfg, env) == NOTHING
    ensures TrafficOf(ProcessRow(w, id, row, cfg, env), id) == TrafficOf(w, id)
  {
    ProcessTraffic(w, id, row, cfg, env, id);
    assert TrafficOf(w, id).sends + [] == TrafficOf(w, id).sends;
  }

  /** The row was not touched, or failed once more. */
  lemma StillStruggling(w0: World, w: World, w': World, id: RowId, max: nat, sent: bool)
    requires Struggling(w0, w, id, max, sent) && id < |w'.table|
    requires w'.table[id] == w.table[id]
             || (w.table[id].status == Processing && w'.table[id] == FailedRow(w.table[id], DELIVERY_ERROR, max))
    requires sent || TrafficOf(w', id) == TrafficOf(w, id)
    ensures Struggling(w0, w', id, max, sent)
  {
  }

  lemma ProcessFails(w0: World, w: World, x: RowId, row: Row, cfg: Config, env: Env, id: RowId, sent: bool)
    requires Reliable(env) && x < |w.table| && Struggling(w0, w, id, cfg.maxRetries, sent)
    requires x == id ==> w.table[id].status == Processing && !Delivers(row, id, cfg, env)
                         && (sent || Attempt(row, id, cfg, env) == NOTHING)
    ensures Struggling(w0, ProcessRow(w, x, row, cfg, env), id, cfg.maxRetries, sent)
    ensures x != id ==> ProcessRow(w, x, row, cfg, env).table[id] == w.table[id]
  {
    if x == id {
      OwnAttemptFails(w, id, row, cfg, env);
      if !sent {
        NothingSent(w, id, row, cfg, env);
      }
    } else {
      OtherRowsStay(w, x, row, cfg, env, id);
      ProcessTraffic(w, x, row, cfg, env, id);
    }
    StillStruggling(w0, w, ProcessRow(w, x, row, cfg, env), id, cfg.maxRetries, sent);
  }

  lemma {:induction false} RowsFail(w0: World, w: World, ids: seq<RowId>, rows: seq<Row>, cfg: Config, env: Env,
                                    id: RowId, sent: bool)
    requires Reliable(env) && Batch(w.table, ids, rows) && Struggling(w0, w, id, cfg.maxRetries, sent)
    requires !Delivers(w0.table[id], id, cfg, env) && (sent || Attempt(w0.table[id], id, cfg, env) == NOTHING)
    ensures var w' := ProcessRows(w, ids, rows, cfg, env);
            && Struggling(w0, w', id, cfg.maxRetries, sent)
            && (id !in ids ==> w'.table[id] == w.table[id])
  {
    if ids != [] {
      var n := |ids| - 1;
      BatchFront(w.table, ids, rows, ids[..n], rows[..n]);
      RowsFail(w0, w, ids[..n], rows[..n], cfg, env, id, sent);
      if ids[n] == id {
        SameEventSameDelivery(rows[n], w.table[id], id, cfg, env);
        SameEventSameDelivery(w.table[id], w0.table[id], id, cfg, env);
      }
      ProcessFails(w0, ProcessRows(w, ids[..n], rows[..n], cfg, env), ids[n], rows[n], cfg, env, id, sent);
    }
  }

  lemma ClaimFails(w0: World, w: World, cfg: Config, env: Env, ids: seq<RowId>, id: RowId, sent: bool)
    requires Reliable(env) && MayTick(w.table, cfg, env, ids) && Struggling(w0, w, id, cfg.maxRetries, sent)
    ensures var claimed := w.(table := Claimed(AfterReclaim(w.table, cfg, env), ids, env.now));
            Struggling(w0, claimed, id, cfg.maxRetries, sent) && Batch(claimed.table, ids, RowsAt(claimed.table, ids))
  {
    var t := AfterReclaim(w.table, cfg, env);
    ClaimedIsABatch(t, cfg.limit, env.locked, ids, env.now);
    assert id in ids ==> Claimable(t, env.locked, id);
  }

  lemma {:induction false} RunFails(w: World, cfg: Config, ticks: seq<Env>, claims: seq<seq<RowId>>, id: RowId, sent: bool)
    requires MayRun(w, cfg, ticks, claims) && AllReliable(ticks) && Healthy(w.table, cfg.maxRetries)
    requires id < |w.table| && !w.table[id].status.Terminal() && NeverDelivers(w.table[id], id, cfg, ticks, sent)
    ensures Struggling(w, RunWorld(w, cfg, ticks, claims), id, cfg.maxRetries, sent)
  {
    if ticks == [] {
      assert HealthyRow(w.table[id], cfg.maxRetries);
    } else {
      var n := |ticks| - 1;
      assert AllReliable(ticks[..n]) && Reliable(ticks[n]);
      assert NeverDelivers(w.table[id], id, cfg, ticks[..n], sent);
      RunFails(w, cfg, ticks[..n], claims[..n], id, sent);
      var w1, env := RunWorld(w, cfg, ticks[..n], claims[..n]), ticks[n];
      TickIsABatch(w1, cfg, env, claims[n]);
      ClaimFails(w, w1, cfg, env, claims[n], id, sent);
      var claimed := w1.(table := Claimed(AfterReclaim(w1.table, cfg, env), claims[n], env.now));
      RowsFail(w, claimed, claims[n], RowsAt(claimed.table, claims[n]), cfg, env, id, sent);
    }
  }

  // ---------------------------------------------------------------- in the end

  /** The prerequisites of Drained. */
  ghost predicate Drains(w: World, cfg: Config, ticks: seq<Env>, claims: seq<seq<RowId>>) {
    && cfg.Valid() && AllReliable(ticks) && Healthy(w.table, cfg.maxRetries)
    && (|ticks| > 0 ==> Abandoned(w.table, cfg, ticks[0].now))
    && MayRun(w, cfg, ticks, claims) && |ticks| >= Backlog(w.table, cfg.maxRetries)
  }

  /** A row whose attempts all succeed is done in the end, after exactly one of them. */
  lemma DeliveredOnce(w: World, cfg: Config, ticks: seq<Env>, claims: seq<seq<RowId>>, id: RowId, mail: Traffic)
    requires Drains(w, cfg, ticks, claims) && id < |w.table| && !w.table[id].status.Terminal()
    requires AlwaysDelivers(w.table[id], id, cfg, ticks, mail)
    ensures var w' := RunWorld(w, cfg, ticks, claims);
            && id < |w'.table| && SameEvent(w.table[id], w'.table[id]) && w'.table[id].status == Done
            && TrafficOf(w', id) == Plus(TrafficOf(w, id), mail)
  {
    Drained(w, cfg, ticks, claims);
    RunOn(w, cfg, ticks, claims, id, mail);
  }

  /** A row whose attempts all fail is dead in the end, after as many as it had left. */
  lemma DeadInTheEnd(w: World, cfg: Config, ticks: seq<Env>, claims: seq<seq<RowId>>, id: RowId, sent: bool)
    requires Drains(w, cfg, ticks, claims) && id < |w.table| && !w.table[id].status.Terminal()
    requires NeverDelivers(w.table[id], id, cfg, ticks, sent)
    ensures var w' := RunWorld(w, cfg, ticks, claims);
            && id < |w'.table| && SameEvent(w.table[id], w'.table[id])
            && w'.table[id].status == Failed && w'.table[id].retryCount == cfg.maxRetries
            && (sent || TrafficOf(w', id) == TrafficOf(w, id))
  {
    Drained(w, cfg, ticks, claims);
    RunFails(w, cfg, ticks, claims, id, sent);
  }

  // ---------------------------------------------------------------- by kind of event

  /** An event about a user: created, updated or deleted, and naming the user. */
  predicate AboutAUser(row: Row) {
    && row.eventType in ["user.created", "user.updated", "user.deleted"]
    && row.payload.Fields? && Uuids.Parse(row.payload.userId).Some?
  }

  /** An event about a tenant's content, naming the tenant. */
  predicate AboutContent(row: Row, tenant: string) {
    HasPrefix(row.eventType, "content.") && row.payload.Fields? && row.payload.tenantId == tenant != ""
  }

  /** User events reach the other system: done, after exactly one upsert, and no webhook hears of them. */
  lemma UserEventsArrive(w: World, cfg: Config, ticks: seq<Env>, claims: seq<seq<RowId>>, id: RowId)
    requires Drains(w, cfg, ticks, claims) && id < |w.table| && !w.table[id].status.Terminal() && AboutAUser(w.table[id])
    requires forall i :: 0 <= i < |ticks| ==> ticks[i].upsert(id)
    ensures var w' := RunWorld(w, cfg, ticks, claims);
            && id < |w'.table| && w'.table[id].status == Done
            && Count(w'.upserts, id) == Count(w.upserts, id) + 1 && SendsOf(w'.sends, id) == SendsOf(w.sends, id)
  {
    DeliveredOnce(w, cfg, ticks, claims, id, Traffic(1, []));
    assert SendsOf(w.sends, id) + [] == SendsOf(w.sends, id);
  }

  function HeardBy(endpoints: seq<Endpoint>, id: RowId): (sends: seq<Sent>)
    ensures |sends| == |endpoints|
  {
    seq(|endpoints|, k requires 0 <= k < |endpoints| => Sent(endpoints[k], id, Heard))
  }

  lemma {:induction false} FanoutHeard(endpoints: seq<Endpoint>, id: RowId, send: (Endpoint, RowId) -> SendOutcome)
    requires forall k :: 0 <= k < |endpoints| ==> send(endpoints[k], id) == Heard
    ensures Fanout(endpoints, id, send) == HeardBy(endpoints, id)
  {
    if endpoints != [] {
      FanoutHeard(endpoints[1..], id, send);
      assert HeardBy(endpoints, id) == [Sent(endpoints[0], id, Heard)] + HeardBy(endpoints[1..], id);
    }
  }

  /** Content events reach every endpoint the tenant has registered, each once and in order, and nobody else. */
  lemma ContentArrives(w: World, cfg: Config, ticks: seq<Env>, claims: seq<seq<RowId>>, id: RowId, tenant: string,
                       endpoints: seq<Endpoint>)
    requires Drains(w, cfg, ticks, claims) && id < |w.table| && !w.table[id].status.Terminal()
    requires AboutContent(w.table[id], tenant) && cfg.webhooksWired
    requires forall i :: 0 <= i < |ticks| ==> ticks[i].directory(tenant) == Some(endpoints)
    requires forall i, k :: 0 <= i < |ticks| && 0 <= k < |endpoints| ==> ticks[i].send(endpoints[k], id) == Heard
    ensures var w' := RunWorld(w, cfg, ticks, claims);
            && id < |w'.table| && w'.table[id].status == Done && Count(w'.upserts, id) == Count(w.upserts, id)
            && SendsOf(w'.sends, id) == SendsOf(w.sends, id) + HeardBy(endpoints, id)
  {
    assert w.table[id].eventType[0] == w.table[id].eventType[..8][0] == 'c';
    assert RouteOf(w.table[id], cfg.webhooksWired) == ToTenant(tenant);
    forall i | 0 <= i < |ticks|
      ensures Delivers(w.table[id], id, cfg, ticks[i])
      ensures Attempt(w.table[id], id, cfg, ticks[i]) == Traffic(0, HeardBy(endpoints, id))
    {
      FanoutHeard(endpoints, id, ticks[i].send);
    }
    DeliveredOnce(w, cfg, ticks, claims, id, Traffic(0, HeardBy(endpoints, id)));
  }

  /** Anything else is never sent anywhere and ends dead, for the operator to see. */
  lemma OthersDie(w: World, cfg: Config, ticks: seq<Env>, claims: seq<seq<RowId>>, id: RowId)
    requires Drains(w, cfg, ticks, claims) && id < |w.table| && !w.table[id].status.Terminal()
    requires !AboutAUser(w.table[id])
    requires cfg.webhooksWired ==> forall tenant :: !AboutContent(w.table[id], tenant)
    ensures var w' := RunWorld(w, cfg, ticks, claims);
            && id < |w'.table| && w'.table[id].status == Failed && w'.table[id].retryCount == cfg.maxRetries
            && Count(w'.upserts, id) == Count(w.upserts, id) && SendsOf(w'.sends, id) == SendsOf(w.sends, id)
  {
    var row := w.table[id];
    assert row.payload.Fields? && cfg.webhooksWired ==> !AboutContent(row, row.payload.tenantId);
    assert RouteOf(row, cfg.webhooksWired).NoRoute?;
    DeadInTheEnd(w, cfg, ticks, claims, id, false);
  }
}

/** From a user's change to the other system: every version of every user is handed over exactly once. */
module UserDelivery {
  import opened Base
  import opened Uuids
  import opened OutboxTable
  import opened UserEvents
  import opened UserEventsProtocol
  import Worker = OutboxWorker
  import OutboxDrain
  import opened OutboxFate

  const PUBLISHED := {EVENT_USER_UPDATED, EVENT_USER_DELETED}
  const ANNOUNCED := {EVENT_USER_CREATED} + PUBLISHED

  /** A fresh row, about the user it is keyed by if it is keyed by one. */
  ghost predicate RowOk(r: Row) {
    && r.status == Pending && r.retryCount == 0
    && forall u: Uuid, v: int :: r.idempotencyKey == IdempotencyKey(u, v) ==>
         AboutAUser(r) && Parse(r.payload.userId) == Some(u)
  }

  lemma UserRowIsOk(user: Uuid, version: int, eventType: string, now: int)
    requires eventType in ANNOUNCED
    ensures RowOk(UserRow(user, version, eventType, now))
  {
    ParseFormat(user);
    forall u: Uuid, v: int | IdempotencyKey(user, version) == IdempotencyKey(u, v) ensures u == user {
      IdempotencyKeyInjective(user, version, u, v);
    }
  }

  /** What registering and publishing leave in the outbox: one pending row more, of the right type, naming the
      user and keyed by user and version, which the worker routes to the other system. */
  lemma RecordingAnnounces(s: Store, user: Uuid, version: int, eventType: string, now: int, webhooksWired: bool)
    requires eventType in ANNOUNCED && !HasKey(s.table, IdempotencyKey(user, version))
    ensures var s' := Recorded(s, user, version, eventType, now);
            && s'.versions == s.versions[user := version]
            && |s'.table| == |s.table| + 1 && s'.table[..|s.table|] == s.table
            && var r := s'.table[|s.table|];
               && r.eventType == eventType && r.payload.Fields? && Parse(r.payload.userId) == Some(user)
               && r.idempotencyKey == Format(user) + ":" + Decimal(version)
               && r.status == Pending && r.retryCount == 0 && r.createdAt == now
               && Worker.RouteOf(r, webhooksWired) == Worker.ToMcp
  {
    ParseFormat(user);
  }

  // ---------------------------------------------------------------- every interleaving announces every version

  ghost predicate TableOk(t: Table) {
    UniqueKeys(t) && forall i :: 0 <= i < |t| ==> RowOk(t[i])
  }

  ghost predicate Announces(s: State) {
    TableOk(s.store.table) && forall tx :: tx in s.txs ==> s.txs[tx].eventType in ANNOUNCED
  }

  predicate PublishedTypes(steps: seq<Step>) {
    forall i :: 0 <= i < |steps| ==> steps[i].Bump? ==> steps[i].eventType in PUBLISHED
  }

  lemma EnqueueKeepsTable(t: Table, eventType: string, payload: Payload, key: string, now: int)
    requires TableOk(t) && RowOk(NewRow(eventType, payload, key, now))
    ensures TableOk(Enqueued(t, eventType, payload, key, now))
  {
    EnqueueKeepsKeysUnique(t, eventType, payload, key, now);
  }

  lemma ContentRowIsOk(eventType: string, payload: Payload, key: string, now: int)
    requires HasPrefix(key, CONTENT_KEY_PREFIX)
    ensures RowOk(NewRow(eventType, payload, key, now))
  {
    forall u: Uuid, v: int ensures key != IdempotencyKey(u, v) {
      ContentKeysAreDisjoint(key, u, v);
    }
  }

  lemma StepAnnounces(s: State, step: Step)
    requires Inv(s) && Announces(s) && Enabled(s, step) && (step.Bump? ==> step.eventType in PUBLISHED)
    ensures Announces(Apply(s, step))
  {
    if step.Commit? {
      var t := s.txs[step.tx];
      var now := CommitRecords(s, step.tx);
      UserRowIsOk(t.user, t.version, t.eventType, now);
      EnqueueKeepsTable(s.store.table, t.eventType, Fields(Format(t.user), ""), IdempotencyKey(t.user, t.version), now);
    } else if step.ContentEvent? {
      ContentRowIsOk(step.eventType, step.payload, step.key, step.now);
      EnqueueKeepsTable(s.store.table, step.eventType, step.payload, step.key, step.now);
    }
  }

  const EMPTY := State(Store(map[], []), map[], map[])

  lemma EmptyIsQuiet()
    ensures Quiet(EMPTY) && Announces(EMPTY)
  {
  }

  lemma {:induction false} AllAnnounced(steps: seq<Step>)
    requires Unversioned(steps) && PublishedTypes(steps) && Exec(EMPTY, steps).Some?
    ensures Announces(Exec(EMPTY, steps).value)
  {
    EmptyIsQuiet();
    if steps != [] {
      var before := steps[..|steps| - 1];
      AllAnnounced(before);
      Reachable(EMPTY, before);
      StepAnnounces(Exec(EMPTY, before).value, steps[|steps| - 1]);
    }
  }

  lemma FreshTableIsHealthy(t: Table, max: nat)
    requires TableOk(t) && max > 0
    ensures Healthy(t, max) && forall i :: 0 <= i < |t| ==> t[i].status == Pending
  {
    assert forall i :: 0 <= i < |t| ==> RowOk(t[i]);
  }

  /** A worker that has just started. */
  function StartOn(table: Table): Worker.World { Worker.World(table, Worker.Counters(0, 0, 0, 0), [], [], []) }

  lemma KeyAt(t: Table, key: string) returns (i: RowId)
    requires HasKey(t, key)
    ensures i < |t| && t[i].idempotencyKey == key
  {
    i :| 0 <= i < |t| && t[i].idempotencyKey == key;
  }

  /** A drained outbox, with the other system accepting, handed each of its user rows over once. */
  lemma FreshRowArrives(table: Table, cfg: Worker.Config, ticks: seq<Worker.Env>, claims: seq<seq<RowId>>, i: RowId)
    requires TableOk(table) && i < |table| && AboutAUser(table[i]) && cfg.Valid() && OutboxDrain.AllReliable(ticks)
    requires Worker.MayRun(StartOn(table), cfg, ticks, claims) && |ticks| >= OutboxDrain.Backlog(table, cfg.maxRetries)
    requires forall k :: 0 <= k < |ticks| ==> ticks[k].upsert(i)
    ensures var w' := Worker.RunWorld(StartOn(table), cfg, ticks, claims);
            && i < |w'.table| && w'.table[i].status == Done && SameEvent(table[i], w'.table[i])
            && Count(w'.upserts, i) == 1
  {
    FreshTableIsHealthy(table, cfg.maxRetries);
    DeliveredOnce(StartOn(table), cfg, ticks, claims, i, Traffic(1, []));
  }

  /** Whatever registrations and publishes interleave and roll back, once the worker has drained the outbox with
      the other system accepting, each version of each user, from the first to the current, has exactly one row,
      that row is done, and it was handed over exactly once. */
  lemma EveryVersionArrives(steps: seq<Step>, cfg: Worker.Config, ticks: seq<Worker.Env>, claims: seq<seq<RowId>>,
                            u: Uuid, v: int) returns (i: RowId)
    requires Unversioned(steps) && PublishedTypes(steps) && Exec(EMPTY, steps).Some?
    requires var store := Exec(EMPTY, steps).value.store;
             && u in store.versions && 1 <= v <= store.versions[u]
             && cfg.Valid() && OutboxDrain.AllReliable(ticks)
             && Worker.MayRun(StartOn(store.table), cfg, ticks, claims)
             && |ticks| >= OutboxDrain.Backlog(store.table, cfg.maxRetries)
    requires forall k, id :: 0 <= k < |ticks| ==> ticks[k].upsert(id)
    ensures var table := Exec(EMPTY, steps).value.store.table;
            && i < |table| && (forall j :: 0 <= j < |table| && table[j].idempotencyKey == IdempotencyKey(u, v) <==> j == i)
            && var w' := Worker.RunWorld(StartOn(table), cfg, ticks, claims);
               && i < |w'.table| && w'.table[i].status == Done && w'.table[i].idempotencyKey == IdempotencyKey(u, v)
               && Count(w'.upserts, i) == 1
  {
    var table := Exec(EMPTY, steps).value.store.table;
    EmptyIsQuiet();
    NoGaps(EMPTY, steps, u, v);
    AllAnnounced(steps);
    i := KeyAt(table, IdempotencyKey(u, v));
    assert RowOk(table[i]);
    FreshRowArrives(table, cfg, ticks, claims, i);
  }
}

/** The table integration_outbox and the statements that touch it.

    A row's id is its position: INSERT appends, nothing deletes. Each statement is a function from the
    table before to the table after; the class PostgresRepository runs them in place. */
module OutboxTable {
  import opened Base

  type RowId = nat

  datatype Status = Pending | Processing | Done | Failed {
    predicate Terminal() { Done? || Failed? }
  }

  /** A JSON payload as its two readers see it: unparseable, or an object whose absent fields read
      as the empty string. */
  datatype Payload = Malformed | Fields(userId: string, tenantId: string)

  datatype Row = Row(
    eventType: string,
    payload: Payload,
    idempotencyKey: string,
    status: Status,
    retryCount: nat,
    createdAt: int,
    claimedAt: Option<int>,
    processedAt: Option<int>,
    lastError: Option<string>)

  type Table = seq<Row>

  // ---------------------------------------------------------------- the statements

  predicate HasKey(t: Table, key: string) {
    exists i :: 0 <= i < |t| && t[i].idempotencyKey == key
  }

  function NewRow(eventType: string, payload: Payload, key: string, now: int): Row {
    Row(eventType, payload, key, Pending, 0, now, None, None, None)
  }

  /** INSERT … ON CONFLICT (idempotency_key) DO NOTHING. */
  function Enqueued(t: Table, eventType: string, payload: Payload, key: string, now: int): Table {
    if HasKey(t, key) then t else t + [NewRow(eventType, payload, key, now)]
  }

  predicate Claimable(t: Table, locked: set<RowId>, id: RowId) {
    id < |t| && t[id].status == Pending && id !in locked
  }

  /** The rows SELECT … WHERE status = 'pending' ORDER BY created_at LIMIT n FOR UPDATE SKIP LOCKED
      may choose, when `locked` are the rows other transactions hold at that moment. */
  ghost predicate MayClaim(t: Table, limit: nat, locked: set<RowId>, ids: seq<RowId>) {
    && |ids| <= limit
    && Distinct(ids)
    && (forall i :: 0 <= i < |ids| ==> Claimable(t, locked, ids[i]))
    && (forall y: RowId :: Claimable(t, locked, y) && y !in ids ==>
          |ids| == limit && forall i :: 0 <= i < |ids| ==> t[ids[i]].createdAt <= t[y].createdAt)
  }

  function ClaimRow(r: Row, now: int): Row {
    r.(status := Processing, claimedAt := Some(now))
  }

  function Claimed(t: Table, ids: seq<RowId>, now: int): (t': Table)
    ensures |t'| == |t|
  {
    seq(|t|, i requires 0 <= i < |t| => if i in ids then ClaimRow(t[i], now) else t[i])
  }

  function RowsAt(t: Table, ids: seq<RowId>): (rows: seq<Row>)
    requires forall i :: 0 <= i < |ids| ==> ids[i] < |t|
    ensures |rows| == |ids|
  {
    seq(|ids|, i requires 0 <= i < |ids| => t[ids[i]])
  }

  function DoneRow(r: Row, now: int): Row {
    r.(status := Done, processedAt := Some(now), lastError := None)
  }

  /** UPDATE … SET status = 'done' WHERE id = $1, whatever the status was. */
  function MarkedDone(t: Table, id: RowId, now: int): Table {
    if id < |t| then t[id := DoneRow(t[id], now)] else t
  }

  function FailedRow(r: Row, error: string, maxRetries: nat): Row {
    r.(retryCount := r.retryCount + 1,
       lastError := Some(error),
       status := if r.retryCount + 1 >= maxRetries then Failed else Pending)
  }

  /** UPDATE … SET retry_count = retry_count + 1, status = CASE … WHERE id = $1, whatever the status was. */
  function MarkedFailed(t: Table, id: RowId, error: string, maxRetries: nat): Table {
    if id < |t| then t[id := FailedRow(t[id], error, maxRetries)] else t
  }

  predicate Stale(r: Row, now: int, olderThan: int) {
    r.status == Processing && r.claimedAt.Some? && r.claimedAt.value < now - olderThan
  }

  function ReclaimedRow(r: Row): Row {
    r.(status := Pending, claimedAt := None, lastError := Some("reclaimed: stale processing"))
  }

  function Reclaimed(t: Table, now: int, olderThan: int): (t': Table)
    ensures |t'| == |t|
  {
    seq(|t|, i requires 0 <= i < |t| => if Stale(t[i], now, olderThan) then ReclaimedRow(t[i]) else t[i])
  }

  // ---------------------------------------------------------------- what a healthy table satisfies

  /** Work still in flight has retries left, and a claimed row carries its claim time. */
  predicate HealthyRow(r: Row, maxRetries: nat) {
    && (!r.status.Terminal() ==> r.retryCount < maxRetries)
    && (r.status == Processing ==> r.claimedAt.Some?)
  }

  ghost predicate Healthy(t: Table, maxRetries: nat) {
    forall i :: 0 <= i < |t| ==> HealthyRow(t[i], maxRetries)
  }

  ghost predicate UniqueKeys(t: Table) {
    forall i, j :: 0 <= i < j < |t| ==> t[i].idempotencyKey != t[j].idempotencyKey
  }

  /** The identity of an event: everything the statements never change. */
  predicate SameEvent(a: Row, b: Row) {
    && a.eventType == b.eventType && a.payload == b.payload
    && a.idempotencyKey == b.idempotencyKey && a.createdAt == b.createdAt
  }

  lemma EnqueueKeepsKeysUnique(t: Table, eventType: string, payload: Payload, key: string, now: int)
    requires UniqueKeys(t)
    ensures UniqueKeys(Enqueued(t, eventType, payload, key, now))
    ensures HasKey(Enqueued(t, eventType, payload, key, now), key)
    ensures t <= Enqueued(t, eventType, payload, key, now)
  {
    var t' := Enqueued(t, eventType, payload, key, now);
    if !HasKey(t, key) {
      assert t'[|t|].idempotencyKey == key;
    }
  }

  // ---------------------------------------------------------------- the repository

  /** One database server: the table, updated in place by each statement. */
  class PostgresRepository {
    var table: Table

    constructor ()
      ensures table == []
    {
      table := [];
    }

    method EnqueueTx(eventType: string, payload: Payload, key: string, now: int)
      modifies this
      ensures table == Enqueued(old(table), eventType, payload, key, now)
      ensures table == old(table) + (if exists i :: 0 <= i < |old(table)| && old(table)[i].idempotencyKey == key then []
                                     else [Row(eventType, payload, key, Pending, 0, now, None, None, None)])
    {
      if !HasKey(table, key) {
        table := table + [NewRow(eventType, payload, key, now)];
      }
    }

    /** `locked` are the rows other transactions hold while the statement runs. */
    method ClaimPending(limit: nat, locked: set<RowId>, now: int) returns (ids: seq<RowId>, rows: seq<Row>)
      modifies this
      ensures MayClaim(old(table), limit, locked, ids)
      ensures table == Claimed(old(table), ids, now)
      ensures rows == RowsAt(table, ids)
      ensures |table| == |old(table)| && forall i :: 0 <= i < |table| ==>
                table[i] == if i in ids then old(table)[i].(status := Processing, claimedAt := Some(now)) else old(table)[i]
    {
      ids := Oldest(table, limit, locked);
      table := Claimed(table, ids, now);
      rows := RowsAt(table, ids);
    }

    method MarkDone(id: RowId, now: int)
      modifies this
      ensures table == MarkedDone(old(table), id, now)
      ensures id < |old(table)| ==>
                table == old(table)[id := old(table)[id].(status := Done, processedAt := Some(now), lastError := None)]
      ensures id >= |old(table)| ==> table == old(table)
    {
      table := MarkedDone(table, id, now);
    }

    /** RETURNING (status = 'failed'); a missing row yields no row to scan, which is an error. */
    method MarkFailedWithRetry(id: RowId, error: string, maxRetries: nat) returns (dead: Option<bool>)
      modifies this
      ensures table == MarkedFailed(old(table), id, error, maxRetries)
      ensures id < |old(table)| ==>
                var r := old(table)[id];
                table == old(table)[id := r.(retryCount := r.retryCount + 1, lastError := Some(error),
                                             status := if r.retryCount + 1 < maxRetries then Pending else Failed)]
      ensures id >= |old(table)| ==> table == old(table)
      ensures dead.Some? <==> id < |table|
      ensures dead.Some? ==> (dead.value <==> table[id].status == Failed)
    {
      table := MarkedFailed(table, id, error, maxRetries);
      dead := if id < |table| then Some(table[id].status == Failed) else None;
    }

    method ReclaimStale(olderThan: int, now: int) returns (n: nat)
      modifies this
      ensures table == Reclaimed(old(table), now, olderThan)
      ensures n == |StaleIds(old(table), now, olderThan)|
      ensures |table| == |old(table)| && forall i :: 0 <= i < |table| ==>
                var r := old(table)[i];
                if r.status == Processing && r.claimedAt.Some? && r.claimedAt.value + olderThan < now
                then i in StaleIds(old(table), now, olderThan)
                     && table[i] == r.(status := Pending, claimedAt := None, lastError := table[i].lastError)
                else i !in StaleIds(old(table), now, olderThan) && table[i] == r
    {
      n := |StaleIds(table, now, olderThan)|;
      table := Reclaimed(table, now, olderThan);
    }
  }

  function StaleIds(t: Table, now: int, olderThan: int): set<RowId> {
    set i: nat | 0 <= i < |t| && Stale(t[i], now, olderThan)
  }

  /** Chooses up to `limit` claimable rows, oldest first. */
  method Oldest(t: Table, limit: nat, locked: set<RowId>) returns (ids: seq<RowId>)
    ensures MayClaim(t, limit, locked, ids)
  {
    ids := [];
    while |ids| < limit
      invariant |ids| <= limit && Distinct(ids)
      invariant forall i :: 0 <= i < |ids| ==> Claimable(t, locked, ids[i])
      invariant forall y: RowId :: Claimable(t, locked, y) && y !in ids ==>
                  forall i :: 0 <= i < |ids| ==> t[ids[i]].createdAt <= t[y].createdAt
    {
      var next := NextOldest(t, locked, ids);
      if next.None? {
        return;
      }
      ids := ids + [next.value];
    }
  }

  method NextOldest(t: Table, locked: set<RowId>, taken: seq<RowId>) returns (best: Option<RowId>)
    ensures best.None? ==> forall y: RowId :: Claimable(t, locked, y) ==> y in taken
    ensures best.Some? ==> Claimable(t, locked, best.value) && best.value !in taken
    ensures best.Some? ==> forall y: RowId :: Claimable(t, locked, y) && y !in taken ==>
              t[best.value].createdAt <= t[y].createdAt
  {
    best := None;
    for i := 0 to |t|
      invariant best.None? ==> forall y: RowId :: Claimable(t, locked, y) && y < i ==> y in taken
      invariant best.Some? ==> Claimable(t, locked, best.value) && best.value !in taken
      invariant best.Some? ==> forall y: RowId :: Claimable(t, locked, y) && y < i && y !in taken ==>
                  t[best.value].createdAt <= t[y].createdAt
    {
      if Claimable(t, locked, i) && i !in taken && (best.None? || t[i].createdAt < t[best.value].createdAt) {
        best := Some(i);
      }
    }
  }
}

/** Registrations and publishes as interleaved transactions: the version bump takes the user's row lock, the
    event is inserted under it, and a rollback undoes both. */
module UserEventsProtocol {
  import opened Base
  import opened Uuids
  import opened OutboxTable
  import opened UserEvents

  type TxId = nat

  /** row is what the enqueue statement offered, stored whether the unique key let it in. */
  datatype Tx = Tx(user: Uuid, version: int, eventType: string, row: Option<Row>, stored: bool)

  datatype State = State(store: Store, locks: map<Uuid, TxId>, txs: map<TxId, Tx>)

  datatype Step =
    | Register(tx: TxId, user: Uuid, given: int)
    | Bump(tx: TxId, user: Uuid, eventType: string)
    | Enqueue(tx: TxId, now: int)
    | Commit(tx: TxId)
    | Rollback(tx: TxId)
    | ContentEvent(eventType: string, payload: Payload, key: string, now: int)

  predicate Enabled(s: State, step: Step) {
    match step
    case Register(tx, user, _) => tx !in s.txs && user !in s.store.versions && user !in s.locks
    case Bump(tx, user, _) =>
      tx !in s.txs && user in s.store.versions && user !in s.locks && s.store.versions[user] < MAX_VERSION
    case Enqueue(tx, _) => tx in s.txs && s.txs[tx].row.None?
    case Commit(tx) => tx in s.txs && s.txs[tx].row.Some?
    case Rollback(tx) => tx in s.txs
    case ContentEvent(_, _, key, _) => HasPrefix(key, CONTENT_KEY_PREFIX)
  }

  function Ended(s: State, tx: TxId): State {
    s.(locks := map u | u in s.locks && s.locks[u] != tx :: s.locks[u], txs := s.txs - {tx})
  }

  function Apply(s: State, step: Step): State
    requires Enabled(s, step)
  {
    match step
    case Register(tx, user, given) =>
      s.(locks := s.locks[user := tx], txs := s.txs[tx := Tx(user, FirstVersion(given), EVENT_USER_CREATED, None, false)])
    case Bump(tx, user, eventType) =>
      s.(locks := s.locks[user := tx], txs := s.txs[tx := Tx(user, s.store.versions[user] + 1, eventType, None, false)])
    case Enqueue(tx, now) =>
      var t := s.txs[tx];
      var row := UserRow(t.user, t.version, t.eventType, now);
      s.(txs := s.txs[tx := t.(row := Some(row), stored := !HasKey(s.store.table, row.idempotencyKey))])
    case Commit(tx) =>
      var t := s.txs[tx];
      Ended(s.(store := Store(s.store.versions[t.user := t.version],
                              if t.stored then s.store.table + [t.row.value] else s.store.table)), tx)
    case Rollback(tx) => Ended(s, tx)
    case ContentEvent(eventType, payload, key, now) =>
      s.(store := s.store.(table := Enqueued(s.store.table, eventType, payload, key, now)))
  }

  function Exec(s: State, steps: seq<Step>): Option<State> {
    if steps == [] then Some(s)
    else
      var r := Exec(s, steps[..|steps| - 1]);
      if r.Some? && Enabled(r.value, steps[|steps| - 1]) then Some(Apply(r.value, steps[|steps| - 1])) else None
  }

  /** The service registers users unversioned. */
  predicate Unversioned(steps: seq<Step>) {
    forall i :: 0 <= i < |steps| ==> steps[i].Register? ==> steps[i].given == 0 || steps[i].given == 1
  }

  ghost predicate Quiet(s: State) {
    s.locks == map[] && s.txs == map[] && Gapless(s.store) && forall u :: u in s.store.versions ==> s.store.versions[u] >= 1
  }

  // ---------------------------------------------------------------- what every step keeps

  function NextVersion(s: Store, user: Uuid): int { if user in s.versions then s.versions[user] + 1 else 1 }

  ghost predicate TxOk(s: State, tx: TxId) {
    tx in s.txs ==>
      var t := s.txs[tx];
      && t.user in s.locks && s.locks[t.user] == tx
      && t.version == NextVersion(s.store, t.user)
      && (t.row.Some? ==> t.stored && exists now :: t.row.value == UserRow(t.user, t.version, t.eventType, now))
  }

  ghost predicate Inv(s: State) {
    && Gapless(s.store)
    && (forall u :: u in s.store.versions ==> s.store.versions[u] >= 1)
    && (forall tx :: TxOk(s, tx))
  }

  /** A commit is the one-transaction-at-a-time recording of the next version's event; nothing was swallowed. */
  lemma CommitRecords(s: State, tx: TxId) returns (now: int)
    requires Inv(s) && Enabled(s, Commit(tx))
    ensures var t, s' := s.txs[tx], Apply(s, Commit(tx));
            && s'.store == Recorded(s.store, t.user, t.version, t.eventType, now)
            && s'.store.table == s.store.table + [UserRow(t.user, t.version, t.eventType, now)]
            && t.version == NextVersion(s.store, t.user) && Gapless(s'.store)
  {
    assert TxOk(s, tx);
    var t := s.txs[tx];
    now :| t.row.value == UserRow(t.user, t.version, t.eventType, now);
    NextVersionIsStored(s.store, t.user, t.version, t.eventType, now);
  }

  lemma StepKeepsGapless(s: State, step: Step)
    requires Inv(s) && Enabled(s, step)
    ensures Gapless(Apply(s, step).store)
  {
    if step.Commit? {
      var _ := CommitRecords(s, step.tx);
    } else if step.ContentEvent? {
      ContentEventsDoNotInterfere(s.store, step.eventType, step.payload, step.key, step.now);
    }
  }

  lemma StepKeepsTx(s: State, step: Step, tx: TxId)
    requires Inv(s) && Enabled(s, step) && (step.Register? ==> step.given == 0 || step.given == 1)
    ensures TxOk(Apply(s, step), tx)
  {
    assert TxOk(s, tx);
    match step
    case Enqueue(a, now) =>
      assert TxOk(s, a);
      if a == tx {
        assert Apply(s, step).txs[tx].row.value == UserRow(s.txs[tx].user, s.txs[tx].version, s.txs[tx].eventType, now);
      }
    case Commit(a) => assert TxOk(s, a);
    case _ =>
  }

  lemma {:induction false} Reachable(s: State, steps: seq<Step>)
    requires Quiet(s) && Unversioned(steps) && Exec(s, steps).Some?
    ensures Inv(Exec(s, steps).value)
  {
    if steps != [] {
      var before := steps[..|steps| - 1];
      Reachable(s, before);
      var now, step := Exec(s, before).value, steps[|steps| - 1];
      StepKeepsGapless(now, step);
      forall tx ensures TxOk(Apply(now, step), tx) {
        StepKeepsTx(now, step, tx);
      }
      if step.Commit? {
        assert TxOk(now, step.tx);
      }
    }
  }

  /** In every interleaving with rollbacks, the user events in the outbox for each user are exactly those of
      versions 1 up to the user's status version. */
  lemma NoGaps(s: State, steps: seq<Step>, u: Uuid, v: int)
    requires Quiet(s) && Unversioned(steps) && Exec(s, steps).Some?
    ensures var store := Exec(s, steps).value.store;
            HasKey(store.table, IdempotencyKey(u, v)) <==> u in store.versions && 1 <= v <= store.versions[u]
  {
    Reachable(s, steps);
  }

  /** ON CONFLICT DO NOTHING never swallows a user event: what a transaction offered, its commit appends. */
  lemma NothingIsSwallowed(s: State, steps: seq<Step>, tx: TxId)
    requires Quiet(s) && Unversioned(steps) && Exec(s, steps).Some? && Enabled(Exec(s, steps).value, Commit(tx))
    ensures var s1 := Exec(s, steps).value;
            && Apply(s1, Commit(tx)).store.table == s1.store.table + [s1.txs[tx].row.value]
            && s1.txs[tx].row.value.idempotencyKey == IdempotencyKey(s1.txs[tx].user, NextVersion(s1.store, s1.txs[tx].user))
  {
    Reachable(s, steps);
    assert TxOk(Exec(s, steps).value, tx);
  }

  // ---------------------------------------------------------------- calls one after the other are among the runs

  lemma ThreeSteps(s: State, a: Step, b: Step, c: Step)
    requires Enabled(s, a) && Enabled(Apply(s, a), b) && Enabled(Apply(Apply(s, a), b), c)
    ensures Exec(s, [a, b, c]) == Some(Apply(Apply(Apply(s, a), b), c))
  {
    assert [a, b, c][..2] == [a, b] && [a, b][..1] == [a] && [a][..0] == [];
    assert Exec(s, []) == Some(s);
    assert Exec(s, [a]) == Some(Apply(s, a));
    assert Exec(s, [a, b]) == Some(Apply(Apply(s, a), b));
  }

  /** A publish nobody interferes with does what the one-at-a-time repository does. */
  lemma PublishAlone(s: State, tx: TxId, user: Uuid, eventType: string, now: int)
    requires Inv(s) && tx !in s.txs && user !in s.locks && user in s.store.versions && s.store.versions[user] < MAX_VERSION
    ensures var r := Exec(s, [Bump(tx, user, eventType), Enqueue(tx, now), Commit(tx)]);
            r.Some? && r.value.txs == s.txs
            && r.value.store == Recorded(s.store, user, s.store.versions[user] + 1, eventType, now)
  {
    ThreeSteps(s, Bump(tx, user, eventType), Enqueue(tx, now), Commit(tx));
  }

  lemma RegisterAlone(s: State, tx: TxId, user: Uuid, given: int, now: int)
    requires Inv(s) && tx !in s.txs && user !in s.locks && user !in s.store.versions
    ensures var r := Exec(s, [Register(tx, user, given), Enqueue(tx, now), Commit(tx)]);
            r.Some? && r.value.txs == s.txs
            && r.value.store == Recorded(s.store, user, if given == 0 then 1 else given, "user.created", now)
  {
    ThreeSteps(s, Register(tx, user, given), Enqueue(tx, now), Commit(tx));
  }
}

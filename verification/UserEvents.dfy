/** Users, their version counters, and the events each version leaves in the outbox. */
module UserEvents {
  import opened Base
  import opened Uuids
  import opened OutboxTable

  const EVENT_USER_CREATED := "user.created"
  const EVENT_USER_UPDATED := "user.updated"
  const EVENT_USER_DELETED := "user.deleted"
  const MAX_VERSION: int := 0x7fff_ffff

  type Versions = map<Uuid, int>

  datatype Store = Store(versions: Versions, table: Table)

  /** A version not given is the first. */
  function FirstVersion(given: int): int { if given == 0 then 1 else given }

  function UserRow(user: Uuid, version: int, eventType: string, now: int): Row {
    NewRow(eventType, Fields(Format(user), ""), IdempotencyKey(user, version), now)
  }

  /** The users row and its event, in one transaction. */
  function Recorded(s: Store, user: Uuid, version: int, eventType: string, now: int): Store {
    Store(s.versions[user := version],
          Enqueued(s.table, eventType, Fields(Format(user), ""), IdempotencyKey(user, version), now))
  }

  /** Every version of every user so far has its event in the outbox, and no other user event is there. */
  ghost predicate Gapless(s: Store) {
    forall u: Uuid, v: int :: HasKey(s.table, IdempotencyKey(u, v)) <==> u in s.versions && 1 <= v <= s.versions[u]
  }

  // ---------------------------------------------------------------- the repository

  class User {
    const id: Uuid
    var statusVersion: int

    constructor (id: Uuid, statusVersion: int)
      ensures this.id == id && this.statusVersion == statusVersion
    {
      this.id, this.statusVersion := id, statusVersion;
    }
  }

  class UserRepository {
    var versions: Versions
    const outbox: PostgresRepository

    ghost function Snapshot(): Store
      reads this, outbox
    {
      Store(versions, outbox.table)
    }

    constructor (outbox: PostgresRepository)
      ensures this.outbox == outbox && versions == map[]
    {
      this.outbox := outbox;
      versions := map[];
    }

    /** commit says how the transaction ends; the argument keeps its version either way. */
    method Create(u: User, now: int, commit: DbOutcome) returns (ok: bool)
      modifies this`versions, outbox, u`statusVersion
      ensures u.statusVersion == FirstVersion(old(u.statusVersion))
      ensures ok <==> u.id !in old(versions) && commit.Reported()
      ensures Snapshot() == if u.id !in old(versions) && commit.TookEffect()
                            then Recorded(old(Snapshot()), u.id, u.statusVersion, EVENT_USER_CREATED, now)
                            else old(Snapshot())
    {
      if u.statusVersion == 0 {
        u.statusVersion := 1;
      }
      if u.id in versions {
        return false;
      }
      if commit.TookEffect() {
        versions := versions[u.id := u.statusVersion];
        outbox.EnqueueTx(EVENT_USER_CREATED, Fields(Format(u.id), ""), IdempotencyKey(u.id, u.statusVersion), now);
      }
      return commit.Reported();
    }

    /** The bump is one statement on the row; commit says how the transaction ends. */
    method PublishUserEvent(u: User, eventType: string, now: int, commit: DbOutcome) returns (ok: bool)
      modifies this`versions, outbox, u`statusVersion
      ensures u.id !in old(versions) || old(versions[u.id]) >= 2_147_483_647 ==>
                !ok && Snapshot() == old(Snapshot()) && u.statusVersion == old(u.statusVersion)
      ensures u.id in old(versions) && old(versions[u.id]) < 2_147_483_647 ==>
                && ok == commit.Reported() && u.statusVersion == old(versions[u.id]) + 1
                && Snapshot() == if commit.TookEffect()
                                 then Recorded(old(Snapshot()), u.id, u.statusVersion, eventType, now)
                                 else old(Snapshot())
    {
      if u.id !in versions || versions[u.id] >= MAX_VERSION {
        return false;
      }
      u.statusVersion := versions[u.id] + 1;
      if commit.TookEffect() {
        versions := versions[u.id := u.statusVersion];
        outbox.EnqueueTx(eventType, Fields(Format(u.id), ""), IdempotencyKey(u.id, u.statusVersion), now);
      }
      return commit.Reported();
    }
  }

  // ---------------------------------------------------------------- one event after the other

  lemma HasKeyAfter(t: Table, r: Row, key: string)
    ensures HasKey(t + [r], key) <==> HasKey(t, key) || key == r.idempotencyKey
  {
    if HasKey(t, key) {
      var i :| 0 <= i < |t| && t[i].idempotencyKey == key;
      assert (t + [r])[i].idempotencyKey == key;
    }
    if key == r.idempotencyKey {
      assert (t + [r])[|t|].idempotencyKey == key;
    }
  }

  /** The next version's event is never swallowed by ON CONFLICT, and leaves no gap. */
  lemma NextVersionIsStored(s: Store, user: Uuid, version: int, eventType: string, now: int)
    requires Gapless(s) && version == (if user in s.versions then s.versions[user] + 1 else 1) && version >= 1
    ensures var s' := Recorded(s, user, version, eventType, now);
            s'.table == s.table + [UserRow(user, version, eventType, now)] && Gapless(s')
  {
    var row := UserRow(user, version, eventType, now);
    var s' := Recorded(s, user, version, eventType, now);
    assert !HasKey(s.table, IdempotencyKey(user, version));
    forall u: Uuid, v: int
      ensures HasKey(s'.table, IdempotencyKey(u, v)) <==> u in s'.versions && 1 <= v <= s'.versions[u]
    {
      HasKeyAfter(s.table, row, IdempotencyKey(u, v));
      IdempotencyKeyInjective(u, v, user, version);
    }
  }

  /** Registration leaves no gap exactly when the user arrives unversioned or at version one. */
  lemma CreationIsGaplessIff(s: Store, user: Uuid, given: int, now: int)
    requires Gapless(s) && user !in s.versions
    ensures Gapless(Recorded(s, user, FirstVersion(given), EVENT_USER_CREATED, now)) <==> given == 0 || given == 1
  {
    if given == 0 || given == 1 {
      NextVersionIsStored(s, user, 1, EVENT_USER_CREATED, now);
    } else {
      var s' := Recorded(s, user, given, EVENT_USER_CREATED, now);
      assert !HasKey(s.table, IdempotencyKey(user, given)) && !HasKey(s.table, IdempotencyKey(user, 1));
      HasKeyAfter(s.table, UserRow(user, given, EVENT_USER_CREATED, now), IdempotencyKey(user, given));
      HasKeyAfter(s.table, UserRow(user, given, EVENT_USER_CREATED, now), IdempotencyKey(user, 1));
      IdempotencyKeyInjective(user, 1, user, given);
      assert HasKey(s'.table, IdempotencyKey(user, given)) && !HasKey(s'.table, IdempotencyKey(user, 1));
    }
  }

  /** Another producer's events, whose keys begin with "content:", leave the user events as they are. */
  lemma ContentEventsDoNotInterfere(s: Store, eventType: string, payload: Payload, key: string, now: int)
    requires Gapless(s) && HasPrefix(key, CONTENT_KEY_PREFIX)
    ensures Gapless(s.(table := Enqueued(s.table, eventType, payload, key, now)))
  {
    var s' := s.(table := Enqueued(s.table, eventType, payload, key, now));
    forall u: Uuid, v: int
      ensures HasKey(s'.table, IdempotencyKey(u, v)) <==> HasKey(s.table, IdempotencyKey(u, v))
    {
      HasKeyAfter(s.table, NewRow(eventType, payload, key, now), IdempotencyKey(u, v));
      ContentKeysAreDisjoint(key, u, v);
    }
  }
}

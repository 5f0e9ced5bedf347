/** What applying and adopting mean for the schema: interruption and adoption change nothing about the
    place an applier ends up. */
module LedgerRuns {
  import opened Base
  import opened Discover
  import opened Ledger

  /** Nothing fails. */
  ghost predicate AllApplied(outcome: nat -> DbOutcome) {
    forall v :: outcome(v) == DbOutcome.Applied
  }

  function SqlOf(ms: seq<Migration>): seq<string> {
    seq(|ms|, i requires 0 <= i < |ms| => ms[i].sql)
  }

  // ---------------------------------------------------------------- what CommitAll does

  lemma {:induction false} CommitAllHistory(db: Db, ms: seq<Migration>)
    requires db.ledger.Some?
    ensures CommitAll(db, ms).history == db.history + SqlOf(ms)
    ensures CommitAll(db, ms).ledger.value.Keys == db.ledger.value.Keys + VersionSet(ms)
  {
    if ms != [] {
      CommitAllHistory(db, ms[..|ms| - 1]);
      assert SqlOf(ms) == SqlOf(ms[..|ms| - 1]) + [ms[|ms| - 1].sql];
    }
  }

  lemma {:induction false} CommitAllKeepsOldRows(db: Db, ms: seq<Migration>, v: nat)
    requires db.ledger.Some? && v in db.ledger.value && !OnDisk(ms, v)
    ensures v in CommitAll(db, ms).ledger.value && CommitAll(db, ms).ledger.value[v] == db.ledger.value[v]
  {
    if ms != [] {
      CommitAllKeepsOldRows(db, ms[..|ms| - 1], v);
    }
  }

  lemma {:induction false} CommitAllAddsRows(db: Db, ms: seq<Migration>, i: nat)
    requires db.ledger.Some? && Canonical(ms) && i < |ms|
    ensures var rows := CommitAll(db, ms).ledger.value;
            ms[i].version in rows && rows[ms[i].version] == Row(ms[i])
  {
    var n := |ms| - 1;
    if i < n {
      assert ms[..n][i] == ms[i];
      CommitAllAddsRows(db, ms[..n], i);
    }
  }

  lemma {:induction false} CommitAllAppend(db: Db, a: seq<Migration>, b: seq<Migration>)
    requires db.ledger.Some?
    ensures CommitAll(db, a + b) == CommitAll(CommitAll(db, a), b)
  {
    if b == [] {
      assert a + b == a;
    } else {
      assert (a + b)[..|a + b| - 1] == a + b[..|b| - 1];
      CommitAllAppend(db, a, b[..|b| - 1]);
    }
  }

  // ---------------------------------------------------------------- the work list

  lemma TodoUnfold(ms: seq<Migration>, rows: Rows)
    requires ms != []
    ensures var p, m := ms[..|ms| - 1], ms[|ms| - 1];
            Todo(ms, rows) == if m.version in rows then Todo(p, rows) else Todo(p, rows) + [m]
  {
    TodoLast(ms, |ms| - 1, rows);
    assert ms[..|ms|] == ms;
  }

  lemma {:induction false} TodoVersions(ms: seq<Migration>, rows: Rows)
    ensures VersionSet(Todo(ms, rows)) == VersionSet(ms) - rows.Keys
  {
    if ms != [] {
      var p, m := ms[..|ms| - 1], ms[|ms| - 1];
      TodoVersions(p, rows);
      TodoUnfold(ms, rows);
    }
  }

  lemma {:induction false} TodoDrawn(ms: seq<Migration>, rows: Rows, k: nat) returns (j: nat)
    requires k < |Todo(ms, rows)|
    ensures j < |ms| && ms[j] == Todo(ms, rows)[k] && ms[j].version !in rows
  {
    var n := |ms| - 1;
    TodoLast(ms, n, rows);
    assert ms[..|ms|] == ms;
    if k < |Todo(ms[..n], rows)| {
      j := TodoDrawn(ms[..n], rows, k);
    } else {
      j := n;
    }
  }

  lemma {:induction false} TodoCanonical(ms: seq<Migration>, rows: Rows)
    requires Canonical(ms)
    ensures Canonical(Todo(ms, rows))
  {
    if ms != [] {
      var n := |ms| - 1;
      TodoCanonical(ms[..n], rows);
      TodoLast(ms, n, rows);
      assert ms[..|ms|] == ms;
      var t := Todo(ms[..n], rows);
      forall k | 0 <= k < |t| ensures t[k].version < ms[n].version {
        var j := TodoDrawn(ms[..n], rows, k);
      }
    }
  }

  lemma {:induction false} VersionsOfPrefix(ms: seq<Migration>, n: nat)
    requires n <= |ms|
    ensures VersionSet(ms[..n]) <= VersionSet(ms)
  {
    if n == |ms| {
      assert ms[..n] == ms;
    } else {
      VersionsOfPrefix(ms[..|ms| - 1], n);
      assert ms[..|ms| - 1][..n] == ms[..n];
    }
  }

  lemma FreshVersion(ms: seq<Migration>, k: nat)
    requires Canonical(ms) && k < |ms|
    ensures !OnDisk(ms[..k], ms[k].version)
  {
    if OnDisk(ms[..k], ms[k].version) {
      var i := OnDiskAt(ms[..k], ms[k].version);
    }
  }

  /** A work list with some of its front already recorded shrinks to its back. */
  lemma SplitLast<T>(t: seq<T>, m: T, front: seq<T>, back: seq<T>)
    requires t + [m] == front + back && back != []
    ensures back == back[..|back| - 1] + [m] && t == front + back[..|back| - 1]
  {
    assert m == (t + [m])[|t|] == back[|back| - 1];
    assert t == (t + [m])[..|t|] == (front + back)[..|t|];
  }

  /** The newest version is not among the earlier ones still to do. */
  lemma NewestIsNotInFront(ms: seq<Migration>, rows: Rows, front: seq<Migration>, rest: seq<Migration>)
    requires Canonical(ms) && ms != [] && Todo(ms[..|ms| - 1], rows) == front + rest
    ensures ms[|ms| - 1].version !in VersionSet(front)
  {
    TodoVersions(ms[..|ms| - 1], rows);
    VersionsOfFront(front, rest);
    FreshVersion(ms, |ms| - 1);
  }

  /** Once the first part of the work list is recorded, the rest is the work list. */
  lemma {:induction false} TodoAfter(ms: seq<Migration>, rows: Rows, front: seq<Migration>, back: seq<Migration>, rows': Rows)
    requires Canonical(ms) && Todo(ms, rows) == front + back
    requires rows'.Keys == rows.Keys + VersionSet(front)
    ensures Todo(ms, rows') == back
  {
    if back == [] {
      assert front + back == front;
      TodoVersions(ms, rows);
      TodoVersions(ms, rows');
    } else {
      var p, m := ms[..|ms| - 1], ms[|ms| - 1];
      TodoUnfold(ms, rows);
      TodoUnfold(ms, rows');
      if m.version in rows {
        TodoAfter(p, rows, front, back, rows');
      } else {
        SplitLast(Todo(p, rows), m, front, back);
        TodoAfter(p, rows, front, back[..|back| - 1], rows');
        NewestIsNotInFront(ms, rows, front, back[..|back| - 1]);
      }
    }
  }

  lemma VersionsOfFront(front: seq<Migration>, rest: seq<Migration>)
    ensures VersionSet(front) <= VersionSet(front + rest)
  {
    assert (front + rest)[..|front|] == front;
    VersionsOfPrefix(front + rest, |front|);
  }

  // ---------------------------------------------------------------- one run of the applier

  /** However it ends, an applier has committed a prefix of its work list; it reports success only if that
      was all of it. */
  lemma {:induction false} AppliesAPrefix(db: Db, todo: seq<Migration>, outcome: nat -> DbOutcome) returns (n: nat)
    requires db.ledger.Some? && Canonical(todo)
    requires forall i :: 0 <= i < |todo| ==> todo[i].version !in db.ledger.value
    ensures n <= |todo|
    ensures var r := ApplyAll(db, todo, outcome);
            && r.db == CommitAll(db, todo[..n])
            && (r.ok ==> n == |todo|)
            && (AllApplied(outcome) ==> r.ok)
            && (r.ok ==> r.applied == Versions(todo))
  {
    if todo == [] {
      return 0;
    }
    var k := |todo| - 1;
    n := AppliesAPrefix(db, todo[..k], outcome);
    var r := ApplyAll(db, todo[..k], outcome);
    if !r.ok {
      assert todo[..k][..n] == todo[..n];
    } else {
      assert todo[..k][..k] == todo[..k];
      CommitAllHistory(db, todo[..k]);
      FreshVersion(todo, k);
      assert todo[k].version !in r.db.ledger.value;
      assert todo[..k + 1] == todo;
      if outcome(todo[k].version).TookEffect() {
        n := k + 1;
      } else {
        n := k;
      }
    }
  }

  function Versions(ms: seq<Migration>): seq<nat> {
    if ms == [] then [] else Versions(ms[..|ms| - 1]) + [ms[|ms| - 1].version]
  }

  /** Up accepts this database: nothing in it is unaccounted for and no file has changed. */
  ghost predicate Accepts(db: Db, ms: seq<Migration>, hasTables: Catalog) {
    !Unaccounted(db, hasTables) && Faithful(ms, RowsOf(db))
  }

  lemma UpCommitsAPrefix(db: Db, ms: seq<Migration>, hasTables: Catalog, outcome: nat -> DbOutcome) returns (n: nat)
    requires Canonical(ms) && Accepts(db, ms, hasTables)
    ensures n <= |Todo(ms, RowsOf(db))|
    ensures var r := UpFrom(db, ms, hasTables, outcome);
            && r.db == CommitAll(WithLedger(db), Todo(ms, RowsOf(db))[..n])
            && (r.ok ==> n == |Todo(ms, RowsOf(db))| && r.applied == Versions(Todo(ms, RowsOf(db))))
            && (AllApplied(outcome) ==> r.ok)
  {
    TodoCanonical(ms, RowsOf(db));
    var todo := Todo(ms, RowsOf(db));
    forall i | 0 <= i < |todo| ensures todo[i].version !in RowsOf(db) {
      var j := TodoDrawn(ms, RowsOf(db), i);
    }
    n := AppliesAPrefix(WithLedger(db), todo, outcome);
  }

  /** Recording files under their own checksums creates no mismatch. */
  lemma {:induction false} FaithfulStays(db: Db, ms: seq<Migration>, front: seq<Migration>)
    requires db.ledger.Some? && Canonical(ms) && Faithful(ms, db.ledger.value)
    requires forall k :: 0 <= k < |front| ==> front[k] in ms
    ensures Faithful(ms, CommitAll(db, front).ledger.value)
  {
    if front != [] {
      var n := |front| - 1;
      FaithfulStays(db, ms, front[..n]);
      assert front[n] in ms;
      var j :| 0 <= j < |ms| && ms[j] == front[n];
      assert forall i :: 0 <= i < |ms| && ms[i].version == front[n].version ==> i == j;
    }
  }

  lemma AcceptsStays(db: Db, ms: seq<Migration>, hasTables: Catalog, n: nat)
    requires Canonical(ms) && Accepts(db, ms, hasTables) && n <= |Todo(ms, RowsOf(db))|
    ensures Accepts(CommitAll(WithLedger(db), Todo(ms, RowsOf(db))[..n]), ms, hasTables)
  {
    var front := Todo(ms, RowsOf(db))[..n];
    forall k | 0 <= k < n ensures front[k] in ms {
      var j := TodoDrawn(ms, RowsOf(db), k);
    }
    FaithfulStays(WithLedger(db), ms, front);
    CommitAllHistory(WithLedger(db), front);
    if n > 0 {
      assert front[0].version in CommitAll(WithLedger(db), front).ledger.value;
    }
  }

  /** Interrupting Up anywhere and rerunning it reaches the state one uninterrupted run reaches: the same
      schema history and the same ledger. */
  lemma ResumeReachesTheSame(db: Db, ms: seq<Migration>, hasTables: Catalog,
                             outcome: nat -> DbOutcome, again: nat -> DbOutcome)
    requires Canonical(ms) && Accepts(db, ms, hasTables) && AllApplied(again)
    ensures var interrupted := UpFrom(db, ms, hasTables, outcome);
            var resumed := UpFrom(interrupted.db, ms, hasTables, again);
            resumed.ok && resumed.db == UpFrom(db, ms, hasTables, again).db
  {
    var n := UpCommitsAPrefix(db, ms, hasTables, outcome);
    var db1 := CommitAll(WithLedger(db), Todo(ms, RowsOf(db))[..n]);
    UpCompletes(db, ms, hasTables, again);
    AcceptsStays(db, ms, hasTables, n);
    UpCompletes(db1, ms, hasTables, again);
    Rejoin(db, ms, n);
  }

  lemma UpCompletes(db: Db, ms: seq<Migration>, hasTables: Catalog, outcome: nat -> DbOutcome)
    requires Canonical(ms) && Accepts(db, ms, hasTables) && AllApplied(outcome)
    ensures UpFrom(db, ms, hasTables, outcome).ok
    ensures UpFrom(db, ms, hasTables, outcome).db == CommitAll(WithLedger(db), Todo(ms, RowsOf(db)))
  {
    var n := UpCommitsAPrefix(db, ms, hasTables, outcome);
    assert Todo(ms, RowsOf(db))[..n] == Todo(ms, RowsOf(db));
  }

  /** What is left to do after a committed prefix completes it. */
  lemma Rejoin(db: Db, ms: seq<Migration>, n: nat)
    requires Canonical(ms) && n <= |Todo(ms, RowsOf(db))|
    ensures var todo := Todo(ms, RowsOf(db));
            var db1 := CommitAll(WithLedger(db), todo[..n]);
            && Todo(ms, RowsOf(db1)) == todo[n..]
            && CommitAll(db1, todo[n..]) == CommitAll(WithLedger(db), todo)
  {
    var todo := Todo(ms, RowsOf(db));
    CommitAllHistory(WithLedger(db), todo[..n]);
    assert todo[..n] + todo[n..] == todo;
    TodoAfter(ms, RowsOf(db), todo[..n], todo[n..], RowsOf(CommitAll(WithLedger(db), todo[..n])));
    CommitAllAppend(WithLedger(db), todo[..n], todo[n..]);
  }

  /** After any successful Up the boot gate opens. */
  lemma VerifyAfterUp(db: Db, ms: seq<Migration>, hasTables: Catalog, outcome: nat -> DbOutcome)
    requires Canonical(ms) && UpFrom(db, ms, hasTables, outcome).ok
    ensures var db' := UpFrom(db, ms, hasTables, outcome).db;
            db'.ledger.Some? && Covered(db'.ledger.value, ms)
  {
    var todo := Todo(ms, RowsOf(db));
    var n := UpCommitsAPrefix(db, ms, hasTables, outcome);
    assert todo[..n] == todo;
    AcceptsStays(db, ms, hasTables, n);
    TodoVersions(ms, RowsOf(db));
    CommitAllHistory(WithLedger(db), todo);
  }

  // ---------------------------------------------------------------- what exactly is written

  /** The versions reported are the first of the work list, one short of what was committed when the last
      commit's answer was lost. */
  lemma {:induction false} Acknowledged(db: Db, todo: seq<Migration>, outcome: nat -> DbOutcome)
    requires db.ledger.Some?
    ensures var r := ApplyAll(db, todo, outcome);
            && r.applied <= Versions(todo) && (r.ok ==> r.applied == Versions(todo))
            && 0 <= |r.db.history| - |db.history| - |r.applied| <= (if r.ok then 0 else 1)
  {
    if todo != [] {
      Acknowledged(db, todo[..|todo| - 1], outcome);
    }
  }

  lemma {:induction false} VersionsFront(a: seq<Migration>, b: seq<Migration>)
    ensures |Versions(a)| == |a| && Versions(a) <= Versions(a + b)
    decreases |a| + |b|
  {
    if b != [] {
      assert (a + b)[..|a + b| - 1] == a + b[..|b| - 1];
      VersionsFront(a, b[..|b| - 1]);
    } else {
      assert a + b == a;
      if a != [] {
        VersionsFront(a[..|a| - 1], []);
      }
    }
  }

  lemma {:induction false} TodoExactly(ms: seq<Migration>, rows: Rows)
    ensures forall m :: m in Todo(ms, rows) <==> m in ms && m.version !in rows
  {
    if ms != [] {
      var p, last := ms[..|ms| - 1], ms[|ms| - 1];
      TodoExactly(p, rows);
      TodoUnfold(ms, rows);
      assert forall m :: m in ms <==> m in p || m == last;
    }
  }

  /** `ran` are the oldest files the ledger lacked, ascending. */
  ghost predicate OldestLacking(rows: Rows, ms: seq<Migration>, ran: seq<Migration>) {
    && (forall m :: m in ran ==> m in ms && m.version !in rows)
    && (forall m, later :: m in ms && m.version !in rows && later in ran && m.version <= later.version ==> m in ran)
    && (forall i, j :: 0 <= i < j < |ran| ==> ran[i].version < ran[j].version)
  }

  /** Their text was appended to the schema's history, in order; each has a row with its name and checksum; every
      other row is as it was. */
  ghost predicate HaveRun(db: Db, db': Db, ran: seq<Migration>) {
    && db'.history == db.history + SqlOf(ran)
    && (forall v :: v in RowsOf(db) ==> v in RowsOf(db') && RowsOf(db')[v] == RowsOf(db)[v])
    && (forall m :: m in ran ==> m.version in RowsOf(db') && RowsOf(db')[m.version] == LedgerRow(m.name, m.checksum))
    && (forall v :: v in RowsOf(db') ==> v in RowsOf(db) || exists m :: m in ran && m.version == v)
  }

  /** Up refuses, touching nothing but a missing ledger, when tables are unaccounted for or a recorded file has
      changed. Otherwise it runs the files the ledger lacks, oldest first, up to where it stops, and reports them
      all, but perhaps the last, whose answer was lost. */
  lemma UpExactly(db: Db, ms: seq<Migration>, hasTables: Catalog, outcome: nat -> DbOutcome) returns (ran: seq<Migration>)
    requires Canonical(ms)
    ensures var r := UpFrom(db, ms, hasTables, outcome);
            && OldestLacking(RowsOf(db), ms, ran) && HaveRun(db, r.db, ran)
            && (r.ok ==> forall m :: m in ms && m.version !in RowsOf(db) ==> m in ran)
            && r.applied <= Versions(ran) && |ran| <= |r.applied| + (if r.ok then 0 else 1)
            && var unaccounted := hasTables(db.history) && RowsOf(db) == map[];
               var changed := exists m :: m in ms && m.version in RowsOf(db) && RowsOf(db)[m.version].checksum != m.checksum;
               && (unaccounted ==> r.db == db)
               && (unaccounted || changed ==> ran == [] && !r.ok)
               && (!unaccounted && !changed && AllApplied(outcome) ==> r.ok)
  {
    ran := [];
    if Accepts(db, ms, hasTables) {
      var todo := Todo(ms, RowsOf(db));
      var n := UpCommitsAPrefix(db, ms, hasTables, outcome);
      ran := todo[..n];
      assert todo == ran + todo[n..];
      TodoCanonical(ms, RowsOf(db));
      FrontIsOldest(RowsOf(db), ms, ran, todo[n..]);
      CanonicalFront(ran, todo[n..]);
      CommitAllApplies(WithLedger(db), ran);
      Acknowledged(WithLedger(db), todo, outcome);
      VersionsFront(ran, todo[n..]);
    } else {
      assert db.history + SqlOf([]) == db.history;
    }
    AcceptsIff(db, ms, hasTables);
  }

  lemma AcceptsIff(db: Db, ms: seq<Migration>, hasTables: Catalog)
    ensures Accepts(db, ms, hasTables) <==>
              && (hasTables(db.history) ==> RowsOf(db) != map[])
              && !exists m :: m in ms && m.version in RowsOf(db) && RowsOf(db)[m.version].checksum != m.checksum
  {
    assert |RowsOf(db)| == 0 <==> RowsOf(db) == map[];
    if m :| m in ms && m.version in RowsOf(db) && RowsOf(db)[m.version].checksum != m.checksum {
      var i :| 0 <= i < |ms| && ms[i] == m;
    }
    if !Faithful(ms, RowsOf(db)) {
      var i :| 0 <= i < |ms| && ms[i].version in RowsOf(db) && ms[i].checksum != RowsOf(db)[ms[i].version].checksum;
      assert ms[i] in ms;
    }
  }

  lemma FrontIsOldest(rows: Rows, ms: seq<Migration>, ran: seq<Migration>, rest: seq<Migration>)
    requires Canonical(ran + rest) && Todo(ms, rows) == ran + rest
    ensures OldestLacking(rows, ms, ran)
    ensures rest == [] ==> forall m :: m in ms && m.version !in rows ==> m in ran
  {
    TodoExactly(ms, rows);
    CanonicalFront(ran, rest);
    EarlierFirst(ran, rest);
  }

  lemma CommitAllApplies(db: Db, ran: seq<Migration>)
    requires db.ledger.Some? && Canonical(ran) && forall m :: m in ran ==> m.version !in RowsOf(db)
    ensures HaveRun(db, CommitAll(db, ran), ran)
  {
    CommitAllHistory(db, ran);
    forall v | OnDisk(ran, v) ensures v !in RowsOf(db) && exists m :: m in ran && m.version == v {
      var i := OnDiskAt(ran, v);
      assert ran[i] in ran;
    }
    forall v | v in RowsOf(db) ensures v in RowsOf(CommitAll(db, ran)) && RowsOf(CommitAll(db, ran))[v] == RowsOf(db)[v] {
      CommitAllKeepsOldRows(db, ran, v);
    }
    forall m | m in ran
      ensures m.version in RowsOf(CommitAll(db, ran)) && RowsOf(CommitAll(db, ran))[m.version] == LedgerRow(m.name, m.checksum)
    {
      var i :| 0 <= i < |ran| && ran[i] == m;
      CommitAllAddsRows(db, ran, i);
    }
  }

  lemma EarlierFirst(ran: seq<Migration>, rest: seq<Migration>)
    requires Canonical(ran + rest)
    ensures forall m, later :: m in ran + rest && later in ran && m.version <= later.version ==> m in ran
    ensures rest == [] ==> forall m :: m in ran + rest ==> m in ran
  {
    forall m, later | m in ran + rest && later in ran && m.version <= later.version ensures m in ran {
      var i :| 0 <= i < |ran + rest| && (ran + rest)[i] == m;
      var j :| 0 <= j < |ran| && ran[j] == later;
      assert (ran + rest)[j] == later;
    }
  }

  lemma {:induction false} UpToExactly(ms: seq<Migration>, to: int)
    ensures forall m :: m in UpTo(ms, to) <==> m in ms && m.version <= to
  {
    if ms != [] {
      UpToExactly(ms[..|ms| - 1], to);
      assert forall m :: m in ms <==> m in ms[..|ms| - 1] || m == ms[|ms| - 1];
    }
  }

  lemma {:induction false} ClaimAllExactly(rows: Rows, ms: seq<Migration>)
    requires forall i, j :: 0 <= i < j < |ms| ==> ms[i].version != ms[j].version
    ensures forall v :: v in rows ==> v in ClaimAll(rows, ms) && ClaimAll(rows, ms)[v] == rows[v]
    ensures forall m :: m in ms && m.version !in rows ==>
              m.version in ClaimAll(rows, ms) && ClaimAll(rows, ms)[m.version] == LedgerRow(m.name, m.checksum)
    ensures forall v :: v in ClaimAll(rows, ms) ==> v in rows || exists m :: m in ms && m.version == v
  {
    if ms != [] {
      var p, last := ms[..|ms| - 1], ms[|ms| - 1];
      ClaimAllExactly(rows, p);
      assert forall m :: m in ms <==> m in p || m == last;
      assert last in ms;
    }
  }

  /** Every file up to `to` that had no row has one now, with its name and checksum; nothing else changed. */
  ghost predicate RecordedUpTo(rows: Rows, rows': Rows, ms: seq<Migration>, to: int) {
    && (forall v :: v in rows ==> v in rows' && rows'[v] == rows[v])
    && (forall m :: m in ms && m.version <= to && m.version !in rows ==>
          m.version in rows' && rows'[m.version] == LedgerRow(m.name, m.checksum))
    && (forall v :: v in rows' && v !in rows ==> exists m :: m in ms && m.version == v <= to)
  }

  lemma ClaimRecords(rows: Rows, ms: seq<Migration>, to: int)
    requires Canonical(ms)
    ensures RecordedUpTo(rows, ClaimAll(rows, UpTo(ms, to)), ms, to)
  {
    UpToExactly(ms, to);
    var front, back := UpToIsAFront(ms, to);
    CanonicalFront(front, back);
    ClaimAllExactly(rows, UpTo(ms, to));
  }

  lemma NoneUpTo(ms: seq<Migration>, to: int)
    ensures UpTo(ms, to) == [] <==> forall m :: m in ms ==> m.version > to
  {
    UpToExactly(ms, to);
    if UpTo(ms, to) != [] {
      assert UpTo(ms, to)[0] in ms;
    }
  }

  /** Adopting runs no DDL. It refuses an empty database and a version below every file; otherwise it records the
      files up to that version in one transaction and leaves every row already there as it was. */
  lemma AdoptExactly(db: Db, ms: seq<Migration>, to: int, hasTables: Catalog, outcome: DbOutcome)
    requires Canonical(ms)
    ensures var (db', answer) := AdoptFrom(db, ms, to, hasTables, outcome);
            && db'.history == db.history && db'.ledger.Some?
            && (answer == NothingToAdopt <==> !hasTables(db.history) && |RowsOf(db)| == 0)
            && (answer == NoSuchVersion <==> answer != NothingToAdopt && forall m :: m in ms ==> m.version > to)
            && (answer == Adopted <==> answer != NothingToAdopt && answer != NoSuchVersion && outcome == DbOutcome.Applied)
            && if (answer == Adopted || answer == CommitFailed) && outcome != DbOutcome.NotApplied
               then RecordedUpTo(RowsOf(db), RowsOf(db'), ms, to)
               else RowsOf(db') == RowsOf(db)
  {
    NoneUpTo(ms, to);
    ClaimRecords(RowsOf(db), ms, to);
  }

  // ---------------------------------------------------------------- from nothing, and by adoption

  const EMPTY := Db([], None)

  /** The one state every complete migration ends in. */
  function Complete(ms: seq<Migration>): Db {
    CommitAll(WithLedger(EMPTY), ms)
  }

  lemma {:induction false} TodoOfNothing(ms: seq<Migration>)
    ensures Todo(ms, map[]) == ms
  {
    if ms != [] {
      TodoOfNothing(ms[..|ms| - 1]);
    }
  }

  /** From an empty database one uninterrupted run reaches the complete state. */
  lemma FreshUp(ms: seq<Migration>, hasTables: Catalog, outcome: nat -> DbOutcome)
    requires Canonical(ms) && AllApplied(outcome) && !hasTables([])
    ensures UpFrom(EMPTY, ms, hasTables, outcome) == UpResult(Complete(ms), Versions(ms), true)
    ensures Complete(ms).history == SqlOf(ms)
  {
    TodoOfNothing(ms);
    var n := UpCommitsAPrefix(EMPTY, ms, hasTables, outcome);
    assert ms[..n] == ms;
    CommitAllHistory(WithLedger(EMPTY), ms);
  }

  lemma {:induction false} UpToAll(ms: seq<Migration>, to: int)
    requires forall i :: 0 <= i < |ms| ==> ms[i].version <= to
    ensures UpTo(ms, to) == ms
  {
    if ms != [] {
      UpToAll(ms[..|ms| - 1], to);
      assert ms == ms[..|ms| - 1] + [ms[|ms| - 1]];
    }
  }

  lemma CanonicalFront(front: seq<Migration>, back: seq<Migration>)
    requires Canonical(front + back)
    ensures Canonical(front)
  {
    var ms := front + back;
    assert forall i :: 0 <= i < |front| ==> ms[i] == front[i];
  }

  lemma UpToSkips(p: seq<Migration>, last: Migration, to: int)
    requires last.version > to
    ensures UpTo(p + [last], to) == UpTo(p, to)
  {
    assert (p + [last])[..|p|] == p;
  }

  lemma LastIsLargest(p: seq<Migration>, last: Migration)
    requires Canonical(p + [last])
    ensures Canonical(p) && forall i :: 0 <= i < |p + [last]| ==> (p + [last])[i].version <= last.version
  {
    var ms := p + [last];
    assert forall i :: 0 <= i < |p| ==> ms[i] == p[i];
    assert ms[|p|] == last;
  }

  /** The versions up to `to` are a front part, since the list ascends. */
  lemma {:induction false} UpToIsAFront(ms: seq<Migration>, to: int) returns (front: seq<Migration>, back: seq<Migration>)
    requires Canonical(ms)
    ensures ms == front + back && UpTo(ms, to) == front
    ensures forall i :: 0 <= i < |front| ==> front[i].version <= to
    ensures forall i :: 0 <= i < |back| ==> back[i].version > to
    decreases |ms|
  {
    front, back := ms, [];
    if ms != [] {
      var p, last := ms[..|ms| - 1], ms[|ms| - 1];
      assert ms == p + [last];
      LastIsLargest(p, last);
      if last.version <= to {
        UpToAll(ms, to);
      } else {
        front, back := UpToIsAFront(p, to);
        UpToSkips(p, last, to);
        back := back + [last];
      }
    }
  }

  lemma {:induction false} ClaimAllOnNothing(ms: seq<Migration>)
    requires Canonical(ms)
    ensures CommitAll(WithLedger(EMPTY), ms).ledger == Some(ClaimAll(map[], ms))
    ensures ClaimAll(map[], ms).Keys == VersionSet(ms)
  {
    if ms != [] {
      ClaimAllOnNothing(ms[..|ms| - 1]);
      FreshVersion(ms, |ms| - 1);
    }
  }

  /** An unmanaged database: tables, and no ledger row that accounts for any. */
  ghost predicate Unmanaged(db: Db, hasTables: Catalog) {
    hasTables(db.history) && |RowsOf(db)| == 0
  }

  /** A ledger that claims the first migrations leaves Up the rest to do. */
  lemma AdoptedLeavesTheRest(db1: Db, ms: seq<Migration>, front: seq<Migration>, back: seq<Migration>, hasTables: Catalog)
    requires Canonical(ms) && ms == front + back && front != []
    requires db1.ledger == CommitAll(WithLedger(EMPTY), front).ledger
    ensures Todo(ms, RowsOf(db1)) == back && Accepts(db1, ms, hasTables)
  {
    TodoOfNothing(ms);
    CommitAllHistory(WithLedger(EMPTY), front);
    TodoAfter(ms, map[], front, back, RowsOf(db1));
    FaithfulStays(WithLedger(EMPTY), ms, front);
    assert front[0].version in RowsOf(db1);
  }

  /** Applying the rest after an adoption of the first part. */
  lemma UpAfterAdopt(db1: Db, ms: seq<Migration>, front: seq<Migration>, back: seq<Migration>, hasTables: Catalog,
                     outcome: nat -> DbOutcome)
    requires Canonical(ms) && ms == front + back && front != [] && AllApplied(outcome)
    requires db1.ledger == CommitAll(WithLedger(EMPTY), front).ledger
    ensures var r := UpFrom(db1, ms, hasTables, outcome);
            r.ok && r.db.ledger == Complete(ms).ledger && r.db.history == db1.history + SqlOf(back)
  {
    AdoptedLeavesTheRest(db1, ms, front, back, hasTables);
    UpCompletes(db1, ms, hasTables, outcome);
    FinishFrom(db1, front, back);
  }

  lemma FinishFrom(db1: Db, front: seq<Migration>, back: seq<Migration>)
    requires db1.ledger == CommitAll(WithLedger(EMPTY), front).ledger
    ensures CommitAll(db1, back).ledger == CommitAll(WithLedger(EMPTY), front + back).ledger
    ensures CommitAll(db1, back).history == db1.history + SqlOf(back)
  {
    SameLedgerGrowth(CommitAll(WithLedger(EMPTY), front), db1, back);
    CommitAllAppend(WithLedger(EMPTY), front, back);
    CommitAllHistory(db1, back);
  }

  lemma AdoptGives(db: Db, ms: seq<Migration>, to: int, hasTables: Catalog)
    requires Canonical(ms) && Unmanaged(db, hasTables) && UpTo(ms, to) != [] && Canonical(UpTo(ms, to))
    ensures AdoptFrom(db, ms, to, hasTables, DbOutcome.Applied) ==
              (Db(db.history, CommitAll(WithLedger(EMPTY), UpTo(ms, to)).ledger), Adopted)
  {
    ClaimAllOnNothing(UpTo(ms, to));
  }

  /** Adopting at `to` and then applying the rest reaches the complete state if and only if the database
      truly held the migrations up to `to` and nothing else. */
  lemma AdoptThenUpIff(db: Db, ms: seq<Migration>, to: int, hasTables: Catalog, outcome: nat -> DbOutcome)
    requires Canonical(ms) && AllApplied(outcome) && Unmanaged(db, hasTables) && UpTo(ms, to) != []
    ensures var adopted := AdoptFrom(db, ms, to, hasTables, DbOutcome.Applied);
            var r := UpFrom(adopted.0, ms, hasTables, outcome);
            && adopted.1 == Adopted && r.ok
            && r.db.ledger == Complete(ms).ledger
            && (r.db == Complete(ms) <==> db.history == SqlOf(UpTo(ms, to)))
  {
    var front, back, db1 := AdoptedAt(db, ms, to, hasTables);
    UpAfterAdopt(db1, ms, front, back, hasTables, outcome);
    CompleteIff(UpFrom(db1, ms, hasTables, outcome).db, ms, front, back, db.history);
  }

  lemma AdoptedAt(db: Db, ms: seq<Migration>, to: int, hasTables: Catalog)
    returns (front: seq<Migration>, back: seq<Migration>, db1: Db)
    requires Canonical(ms) && Unmanaged(db, hasTables) && UpTo(ms, to) != []
    ensures ms == front + back && front == UpTo(ms, to)
    ensures db1 == Db(db.history, CommitAll(WithLedger(EMPTY), front).ledger)
    ensures AdoptFrom(db, ms, to, hasTables, DbOutcome.Applied) == (db1, Adopted)
  {
    front, back := UpToIsAFront(ms, to);
    CanonicalFront(front, back);
    AdoptGives(db, ms, to, hasTables);
    db1 := Db(db.history, CommitAll(WithLedger(EMPTY), front).ledger);
  }

  lemma CompleteIff(db: Db, ms: seq<Migration>, front: seq<Migration>, back: seq<Migration>, history: seq<string>)
    requires ms == front + back && db.ledger == Complete(ms).ledger && db.history == history + SqlOf(back)
    ensures db == Complete(ms) <==> history == SqlOf(front)
  {
    CommitAllHistory(WithLedger(EMPTY), ms);
    assert SqlOf(ms) == SqlOf(front) + SqlOf(back);
    SamePrefixIff(history, SqlOf(front), SqlOf(back));
  }

  lemma SamePrefixIff(a: seq<string>, b: seq<string>, tail: seq<string>)
    ensures a + tail == b + tail <==> a == b
  {
    if a + tail == b + tail {
      assert |a| == |b|;
      assert a == (a + tail)[..|a|] && b == (b + tail)[..|b|];
    }
  }

  lemma {:induction false} SameLedgerGrowth(a: Db, b: Db, ms: seq<Migration>)
    requires a.ledger.Some? && a.ledger == b.ledger
    ensures CommitAll(a, ms).ledger == CommitAll(b, ms).ledger
  {
    if ms != [] {
      SameLedgerGrowth(a, b, ms[..|ms| - 1]);
    }
  }
}

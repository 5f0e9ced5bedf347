/** The migration ledger: inspect, verify, apply, adopt, by one caller at a time.

    A database is the DDL it has committed, in order, plus the ledger table when that exists. Whether a
    history leaves any base table behind is a property of the SQL, so it is a parameter. */
module Ledger {
  import opened Base
  import opened Discover

  datatype LedgerRow = LedgerRow(name: string, checksum: Checksum)

  type Rows = map<nat, LedgerRow>

  datatype Db = Db(history: seq<string>, ledger: Option<Rows>)

  /** Are there base tables other than the ledger? */
  type Catalog = seq<string> -> bool

  datatype State = State(
    hasLedger: bool,
    empty: bool,
    applied: Rows,
    missing: seq<nat>,
    mismatched: seq<nat>,
    unknown: seq<nat>)

  function RowsOf(db: Db): Rows {
    if db.ledger.Some? then db.ledger.value else map[]
  }

  // ---------------------------------------------------------------- the three differences

  /** The versions on disk. */
  function VersionSet(ms: seq<Migration>): (vs: set<nat>)
    ensures forall i :: 0 <= i < |ms| ==> ms[i].version in vs
  {
    if ms == [] then {} else VersionSet(ms[..|ms| - 1]) + {ms[|ms| - 1].version}
  }

  predicate OnDisk(ms: seq<Migration>, v: nat) {
    v in VersionSet(ms)
  }

  lemma {:induction false} OnDiskAt(ms: seq<Migration>, v: nat) returns (i: nat)
    requires OnDisk(ms, v)
    ensures i < |ms| && ms[i].version == v
  {
    i := |ms| - 1;
    if ms[i].version != v {
      i := OnDiskAt(ms[..i], v);
    }
  }

  lemma OnDiskLast(ms: seq<Migration>, k: nat)
    requires k < |ms|
    ensures VersionSet(ms[..k + 1]) == VersionSet(ms[..k]) + {ms[k].version}
  {
    assert ms[..k + 1][..k] == ms[..k];
  }

  ghost predicate IsMissing(ms: seq<Migration>, rows: Rows, v: nat) {
    v !in rows && OnDisk(ms, v)
  }

  ghost predicate IsMismatched(ms: seq<Migration>, rows: Rows, v: nat) {
    v in rows && exists i :: 0 <= i < |ms| && ms[i].version == v && ms[i].checksum != rows[v].checksum
  }

  ghost predicate IsUnknown(ms: seq<Migration>, rows: Rows, v: nat) {
    v in rows && !OnDisk(ms, v)
  }

  ghost predicate Ascending(vs: seq<nat>) {
    forall i, j :: 0 <= i < j < |vs| ==> vs[i] < vs[j]
  }

  /** st is the exact diff between the database and the files. */
  ghost predicate IsDiff(st: State, db: Db, ms: seq<Migration>, hasTables: Catalog) {
    && st.hasLedger == db.ledger.Some?
    && st.empty == !hasTables(db.history)
    && st.applied == RowsOf(db)
    && Ascending(st.missing) && (forall v :: v in st.missing <==> IsMissing(ms, st.applied, v))
    && Ascending(st.mismatched) && (forall v :: v in st.mismatched <==> IsMismatched(ms, st.applied, v))
    && Ascending(st.unknown) && (forall v :: v in st.unknown <==> IsUnknown(ms, st.applied, v))
  }

  lemma DifferencesAreDisjoint(st: State, db: Db, ms: seq<Migration>, hasTables: Catalog, v: nat)
    requires IsDiff(st, db, ms, hasTables)
    ensures !(v in st.missing && v in st.mismatched)
    ensures !(v in st.missing && v in st.unknown)
    ensures !(v in st.mismatched && v in st.unknown)
    ensures v in st.missing || v in st.mismatched || v in st.unknown ||
            (!OnDisk(ms, v) && v !in st.applied) ||
            (v in st.applied && forall i :: 0 <= i < |ms| && ms[i].version == v ==> ms[i].checksum == st.applied[v].checksum)
  {
    if v in st.mismatched {
      assert IsMismatched(ms, st.applied, v);
    }
  }

  // ---------------------------------------------------------------- the verdicts

  datatype Verdict =
    | Current
    | Uninitialised(pending: nat)
    | Unadopted(highest: nat)
    | Behind(missing: seq<nat>)
    | ChecksumMismatch(versions: seq<nat>)

  function Judge(st: State, ms: seq<Migration>): Verdict
    requires ms != []
  {
    if !st.hasLedger && st.empty then Uninitialised(|ms|)
    else if !st.hasLedger then Unadopted(ms[|ms| - 1].version)
    else if st.missing != [] then Behind(st.missing)
    else if st.mismatched != [] then ChecksumMismatch(st.mismatched)
    else Current
  }

  /** Every file is in the ledger under the checksum it has now. */
  ghost predicate Covered(rows: Rows, ms: seq<Migration>) {
    forall i :: 0 <= i < |ms| ==> ms[i].version in rows && rows[ms[i].version].checksum == ms[i].checksum
  }

  lemma SomethingListed(vs: seq<nat>)
    requires vs != []
    ensures exists v :: v in vs
  {
    assert vs[0] in vs;
  }

  /** The boot gate opens if and only if the ledger exists and covers every file. */
  lemma CurrentIff(st: State, db: Db, ms: seq<Migration>, hasTables: Catalog)
    requires ms != [] && IsDiff(st, db, ms, hasTables)
    ensures Judge(st, ms) == Current <==> db.ledger.Some? && Covered(db.ledger.value, ms)
  {
    if Judge(st, ms) == Current {
      forall i | 0 <= i < |ms|
        ensures ms[i].version in st.applied && st.applied[ms[i].version].checksum == ms[i].checksum
      {
        var v := ms[i].version;
        assert v !in st.missing && v !in st.mismatched;
        assert OnDisk(ms, v);
        assert !IsMismatched(ms, st.applied, v);
      }
    }
    if db.ledger.Some? && Covered(db.ledger.value, ms) {
      forall v ensures !IsMissing(ms, st.applied, v) && !IsMismatched(ms, st.applied, v) {
        if OnDisk(ms, v) {
          var i := OnDiskAt(ms, v);
        }
      }
      if st.missing != [] {
        SomethingListed(st.missing);
      } else if st.mismatched != [] {
        SomethingListed(st.mismatched);
      }
    }
  }

  lemma BehindIff(st: State, db: Db, ms: seq<Migration>, hasTables: Catalog)
    requires IsDiff(st, db, ms, hasTables)
    ensures st.missing != [] <==> exists i :: 0 <= i < |ms| && ms[i].version !in RowsOf(db)
  {
    if st.missing != [] {
      assert st.missing[0] in st.missing;
      var i := OnDiskAt(ms, st.missing[0]);
    }
    if i :| 0 <= i < |ms| && ms[i].version !in RowsOf(db) {
      assert OnDisk(ms, ms[i].version);
      assert ms[i].version in st.missing;
    }
  }

  // ---------------------------------------------------------------- applying, as functions

  function Row(m: Migration): LedgerRow { LedgerRow(m.name, m.checksum) }

  /** DDL and ledger row in one transaction. */
  function Commit(db: Db, m: Migration): Db
    requires db.ledger.Some?
  {
    Db(db.history + [m.sql], Some(db.ledger.value[m.version := Row(m)]))
  }

  function CommitAll(db: Db, ms: seq<Migration>): (db': Db)
    requires db.ledger.Some?
    ensures db'.ledger.Some?
  {
    if ms == [] then db else Commit(CommitAll(db, ms[..|ms| - 1]), ms[|ms| - 1])
  }

  function WithLedger(db: Db): Db {
    if db.ledger.Some? then db else db.(ledger := Some(map[]))
  }

  /** The migrations whose version `rows` lacks, in order. */
  function Todo(ms: seq<Migration>, rows: Rows): seq<Migration> {
    if ms == [] then []
    else Todo(ms[..|ms| - 1], rows) + (if ms[|ms| - 1].version in rows then [] else [ms[|ms| - 1]])
  }

  lemma TodoLast(ms: seq<Migration>, k: nat, rows: Rows)
    requires k < |ms|
    ensures Todo(ms[..k + 1], rows) ==
              if ms[k].version in rows then Todo(ms[..k], rows) else Todo(ms[..k], rows) + [ms[k]]
  {
    assert ms[..k + 1][..k] == ms[..k];
  }

  /** What one attempt to apply does: the ledger's primary key refuses a version already recorded. */
  function Attempt(db: Db, m: Migration, outcome: DbOutcome): DbOutcome
    requires db.ledger.Some?
  {
    if m.version in db.ledger.value then NotApplied else outcome
  }

  function Tried(db: Db, m: Migration, outcome: DbOutcome): (db': Db)
    requires db.ledger.Some?
    ensures db'.ledger.Some?
  {
    if Attempt(db, m, outcome).TookEffect() then Commit(db, m) else db
  }

  datatype UpResult = UpResult(db: Db, applied: seq<nat>, ok: bool)

  /** Applying a list in order, stopping at the first error. */
  function ApplyAll(db: Db, todo: seq<Migration>, outcome: nat -> DbOutcome): (r: UpResult)
    requires db.ledger.Some?
    ensures r.db.ledger.Some?
  {
    if todo == [] then UpResult(db, [], true)
    else
      var n := |todo| - 1;
      var r := ApplyAll(db, todo[..n], outcome);
      if !r.ok then r
      else
        var o := Attempt(r.db, todo[n], outcome(todo[n].version));
        UpResult(Tried(r.db, todo[n], outcome(todo[n].version)),
                 if o.Reported() then r.applied + [todo[n].version] else r.applied,
                 o.Reported())
  }

  ghost predicate Unaccounted(db: Db, hasTables: Catalog) {
    hasTables(db.history) && |RowsOf(db)| == 0
  }

  /** Every file the ledger records is recorded under the checksum it has now. */
  ghost predicate Faithful(ms: seq<Migration>, rows: Rows) {
    forall i :: 0 <= i < |ms| && ms[i].version in rows ==> ms[i].checksum == rows[ms[i].version].checksum
  }

  /** Up as a whole. */
  ghost function UpFrom(db: Db, ms: seq<Migration>, hasTables: Catalog, outcome: nat -> DbOutcome): UpResult {
    if Unaccounted(db, hasTables) then UpResult(db, [], false)
    else if !Faithful(ms, RowsOf(db)) then UpResult(WithLedger(db), [], false)
    else ApplyAll(WithLedger(db), Todo(ms, RowsOf(db)), outcome)
  }

  // ---------------------------------------------------------------- adopting, as functions

  function UpTo(ms: seq<Migration>, to: int): seq<Migration> {
    if ms == [] then []
    else UpTo(ms[..|ms| - 1], to) + (if ms[|ms| - 1].version <= to then [ms[|ms| - 1]] else [])
  }

  /** INSERT … ON CONFLICT (version) DO NOTHING for each claimed migration. */
  function ClaimAll(rows: Rows, ms: seq<Migration>): Rows {
    if ms == [] then rows
    else
      var r := ClaimAll(rows, ms[..|ms| - 1]);
      var m := ms[|ms| - 1];
      if m.version in r then r else r[m.version := Row(m)]
  }

  datatype AdoptAnswer = Adopted | NothingToAdopt | NoSuchVersion | CommitFailed

  ghost function AdoptFrom(db: Db, ms: seq<Migration>, to: int, hasTables: Catalog, outcome: DbOutcome): (Db, AdoptAnswer) {
    var db1 := WithLedger(db);
    if !hasTables(db.history) && |RowsOf(db)| == 0 then (db1, NothingToAdopt)
    else if UpTo(ms, to) == [] then (db1, NoSuchVersion)
    else
      (if outcome.TookEffect() then db1.(ledger := Some(ClaimAll(RowsOf(db), UpTo(ms, to)))) else db1,
       if outcome.Reported() then Adopted else CommitFailed)
  }

  // ---------------------------------------------------------------- the code, in place

  /** One integer inserted into an ascending list that lacks it. */
  function InsertInt(vs: seq<nat>, v: nat): (r: seq<nat>)
    ensures forall x :: x in r <==> x == v || x in vs
  {
    if vs == [] then [v]
    else if v < vs[0] then [v] + vs
    else
      var r := [vs[0]] + InsertInt(vs[1..], v);
      assert forall x :: x in vs <==> x == vs[0] || x in vs[1..];
      r
  }

  lemma {:induction false} InsertIntAscending(vs: seq<nat>, v: nat)
    requires Ascending(vs) && v !in vs
    ensures Ascending(InsertInt(vs, v))
  {
    if vs != [] && v >= vs[0] {
      assert vs[0] in vs;
      InsertIntAscending(vs[1..], v);
      var t := InsertInt(vs[1..], v);
      forall k | 0 <= k < |t| ensures vs[0] < t[k] {
        assert t[k] in t;
        assert t[k] == v || t[k] in vs[1..];
      }
    }
  }

  class Database {
    const hasTables: Catalog
    var history: seq<string>
    var ledger: Option<Rows>

    function Snapshot(): Db
      reads this
    {
      Db(history, ledger)
    }

    constructor (hasTables: Catalog, db: Db)
      ensures this.hasTables == hasTables && Snapshot() == db
    {
      this.hasTables := hasTables;
      history, ledger := db.history, db.ledger;
    }

    /** Reads, writes nothing. */
    method Inspect(ms: seq<Migration>) returns (st: State)
      requires Canonical(ms)
      ensures IsDiff(st, Snapshot(), ms, hasTables)
    {
      var applied := if ledger.Some? then ledger.value else map[];
      var missing, mismatched, unknown: seq<nat> := [], [], [];
      for k := 0 to |ms|
        invariant Ascending(missing) && forall v :: v in missing <==> IsMissing(ms[..k], applied, v)
        invariant Ascending(mismatched) && forall v :: v in mismatched <==> IsMismatched(ms[..k], applied, v)
      {
        var m := ms[k];
        ExtendDifferences(ms, k, applied);
        if m.version !in applied {
          InsertLast(missing, m.version, ms, k);
          missing := missing + [m.version];
        } else if applied[m.version].checksum != m.checksum {
          InsertLast(mismatched, m.version, ms, k);
          mismatched := mismatched + [m.version];
        }
      }
      assert ms[..|ms|] == ms;
      var todo := applied.Keys;
      while todo != {}
        invariant todo <= applied.Keys
        invariant Ascending(unknown) && forall v :: v in unknown <==> v !in todo && IsUnknown(ms, applied, v)
        decreases |todo|
      {
        var v :| v in todo;
        todo := todo - {v};
        var known := Known(ms, v);
        if !known {
          InsertIntAscending(unknown, v);
          unknown := InsertInt(unknown, v);
        }
      }
      st := State(ledger.Some?, !hasTables(history), applied, missing, mismatched, unknown);
    }

    method Verify(ms: seq<Migration>) returns (verdict: Verdict)
      requires Canonical(ms) && ms != []
      ensures verdict == Current <==> ledger.Some? && Covered(ledger.value, ms)
      ensures verdict.Uninitialised? <==> ledger.None? && !hasTables(history)
      ensures verdict.Unadopted? <==> ledger.None? && hasTables(history)
      ensures verdict.Behind? ==> verdict.missing != [] && forall v :: v in verdict.missing <==> IsMissing(ms, RowsOf(Snapshot()), v)
      ensures verdict.ChecksumMismatch? ==>
                forall v :: v in verdict.versions <==> IsMismatched(ms, RowsOf(Snapshot()), v)
      ensures verdict.Behind? <==> ledger.Some? && exists i :: 0 <= i < |ms| && ms[i].version !in ledger.value
      ensures verdict.Uninitialised? ==> verdict.pending == |ms|
      ensures verdict.Unadopted? ==> verdict.highest == ms[|ms| - 1].version
    {
      var st := Inspect(ms);
      CurrentIff(st, Snapshot(), ms, hasTables);
      BehindIff(st, Snapshot(), ms, hasTables);
      verdict := Judge(st, ms);
    }

    /** outcome says how the transaction of each version ends. */
    method Up(ms: seq<Migration>, outcome: nat -> DbOutcome) returns (applied: seq<nat>, ok: bool)
      requires Canonical(ms) && ms != []
      modifies this`history, this`ledger
      ensures UpResult(Snapshot(), applied, ok) == UpFrom(old(Snapshot()), ms, hasTables, outcome)
    {
      var st := Inspect(ms);
      if !st.empty && |st.applied| == 0 {
        return [], false;
      }
      if ledger.None? {
        ledger := Some(map[]);
      }
      MismatchIffListed(st, old(Snapshot()), ms, hasTables);
      if |st.mismatched| > 0 {
        return [], false;
      }
      applied, ok := ApplyMissing(ms, st.applied, outcome);
    }

    /** Up's loop: everything the ledger read at the start did not have, oldest first. */
    method ApplyMissing(ms: seq<Migration>, known: Rows, outcome: nat -> DbOutcome) returns (applied: seq<nat>, ok: bool)
      requires ledger.Some?
      modifies this`history, this`ledger
      ensures UpResult(Snapshot(), applied, ok) == ApplyAll(old(Snapshot()), Todo(ms, known), outcome)
    {
      applied, ok := [], true;
      for k := 0 to |ms|
        invariant ledger.Some? && ok
        invariant UpResult(Snapshot(), applied, ok) == ApplyAll(old(Snapshot()), Todo(ms[..k], known), outcome)
      {
        TodoLast(ms, k, known);
        ghost var todo := Todo(ms[..k], known);
        if ms[k].version !in known {
          ApplyOneMore(old(Snapshot()), todo, ms[k], outcome);
          var done := ApplyOne(ms[k], outcome(ms[k].version));
          if !done {
            ok := false;
            FrontAndRest(ms, k + 1);
            StoppedEarly(old(Snapshot()), ms, ms[..k + 1], ms[k + 1..], known, outcome);
            return;
          }
          applied := applied + [ms[k].version];
        }
      }
      assert ms[..|ms|] == ms;
    }

    method ApplyOne(m: Migration, outcome: DbOutcome) returns (ok: bool)
      requires ledger.Some?
      modifies this`history, this`ledger
      ensures Snapshot() == Tried(old(Snapshot()), m, outcome)
      ensures ok == Attempt(old(Snapshot()), m, outcome).Reported()
    {
      if m.version in ledger.value || !outcome.TookEffect() {
        return false;
      }
      history := history + [m.sql];
      ledger := Some(ledger.value[m.version := Row(m)]);
      return outcome.Reported();
    }

    method Adopt(ms: seq<Migration>, to: int, outcome: DbOutcome) returns (answer: AdoptAnswer)
      requires Canonical(ms) && ms != []
      modifies this`ledger
      ensures (Snapshot(), answer) == AdoptFrom(old(Snapshot()), ms, to, hasTables, outcome)
    {
      if ledger.None? {
        ledger := Some(map[]);
      }
      var st := Inspect(ms);
      if st.empty && |st.applied| == 0 {
        return NothingToAdopt;
      }
      var claim: seq<Migration> := [];
      for k := 0 to |ms|
        invariant claim == UpTo(ms[..k], to)
      {
        assert ms[..k + 1][..k] == ms[..k];
        if ms[k].version <= to {
          claim := claim + [ms[k]];
        }
      }
      assert ms[..|ms|] == ms;
      if |claim| == 0 {
        return NoSuchVersion;
      }
      var rows := ledger.value;
      for k := 0 to |claim|
        invariant rows == ClaimAll(st.applied, claim[..k])
      {
        assert claim[..k + 1][..k] == claim[..k];
        if claim[k].version !in rows {
          rows := rows[claim[k].version := Row(claim[k])];
        }
      }
      assert claim[..|claim|] == claim;
      if outcome.TookEffect() {
        ledger := Some(rows);
      }
      return if outcome.Reported() then Adopted else CommitFailed;
    }
  }

  method Known(ms: seq<Migration>, v: nat) returns (known: bool)
    ensures known <==> OnDisk(ms, v)
  {
    for k := 0 to |ms|
      invariant !OnDisk(ms[..k], v)
    {
      OnDiskLast(ms, k);
      if ms[k].version == v {
        return true;
      }
    }
    assert ms[..|ms|] == ms;
    return false;
  }

  lemma ExtendDifferences(ms: seq<Migration>, k: nat, rows: Rows)
    requires Canonical(ms) && k < |ms|
    ensures forall v :: IsMissing(ms[..k + 1], rows, v) <==>
              IsMissing(ms[..k], rows, v) || (v == ms[k].version && v !in rows)
    ensures forall v :: IsMismatched(ms[..k + 1], rows, v) <==>
              IsMismatched(ms[..k], rows, v) ||
              (v == ms[k].version && v in rows && rows[v].checksum != ms[k].checksum)
  {
    OnDiskLast(ms, k);
    forall v ensures IsMismatched(ms[..k + 1], rows, v) <==>
              IsMismatched(ms[..k], rows, v) || (v == ms[k].version && v in rows && rows[v].checksum != ms[k].checksum)
    {
      if IsMismatched(ms[..k], rows, v) {
        var i :| 0 <= i < k && ms[..k][i].version == v && ms[..k][i].checksum != rows[v].checksum;
        assert ms[..k + 1][i] == ms[..k][i];
      }
      assert ms[..k + 1][k] == ms[k];
    }
  }

  lemma InsertLast(vs: seq<nat>, v: nat, ms: seq<Migration>, k: nat)
    requires Canonical(ms) && k < |ms| && v == ms[k].version && Ascending(vs)
    requires forall x :: x in vs ==> OnDisk(ms[..k], x)
    ensures Ascending(vs + [v]) && v !in vs
  {
    forall i | 0 <= i < |vs| ensures vs[i] < v {
      assert vs[i] in vs;
      var j := OnDiskAt(ms[..k], vs[i]);
    }
  }

  lemma MismatchIffListed(st: State, db: Db, ms: seq<Migration>, hasTables: Catalog)
    requires IsDiff(st, db, ms, hasTables)
    ensures |st.mismatched| > 0 <==> !Faithful(ms, RowsOf(db))
  {
    if |st.mismatched| > 0 {
      assert st.mismatched[0] in st.mismatched;
    }
    if !Faithful(ms, RowsOf(db)) {
      var i :| 0 <= i < |ms| && ms[i].version in RowsOf(db) && ms[i].checksum != RowsOf(db)[ms[i].version].checksum;
      assert IsMismatched(ms, RowsOf(db), ms[i].version);
      assert ms[i].version in st.mismatched;
    }
  }

  /** Once a prefix of the work has failed, the rest of the list changes nothing. */
  lemma ApplyOneMore(db: Db, todo: seq<Migration>, m: Migration, outcome: nat -> DbOutcome)
    requires db.ledger.Some?
    ensures var r := ApplyAll(db, todo, outcome);
            ApplyAll(db, todo + [m], outcome) ==
              if !r.ok then r
              else var o := Attempt(r.db, m, outcome(m.version));
                   UpResult(Tried(r.db, m, outcome(m.version)),
                            if o.Reported() then r.applied + [m.version] else r.applied, o.Reported())
  {
    assert (todo + [m])[..|todo|] == todo;
  }

  lemma TodoOneMore(ms: seq<Migration>, m: Migration, rows: Rows)
    ensures Todo(ms + [m], rows) == if m.version in rows then Todo(ms, rows) else Todo(ms, rows) + [m]
  {
    assert (ms + [m])[..|ms|] == ms;
  }

  lemma FrontAndRest(ms: seq<Migration>, k: nat)
    requires k <= |ms|
    ensures ms == ms[..k] + ms[k..]
  {
  }

  lemma {:induction false} StoppedEarly(db: Db, ms: seq<Migration>, front: seq<Migration>, rest: seq<Migration>, rows: Rows,
                                        outcome: nat -> DbOutcome)
    requires ms == front + rest && db.ledger.Some? && !ApplyAll(db, Todo(front, rows), outcome).ok
    ensures ApplyAll(db, Todo(ms, rows), outcome) == ApplyAll(db, Todo(front, rows), outcome)
    decreases |rest|
  {
    if rest == [] {
      assert ms == front;
    } else {
      var before, last := front + rest[..|rest| - 1], rest[|rest| - 1];
      assert ms == before + [last];
      StoppedEarly(db, before, front, rest[..|rest| - 1], rows, outcome);
      TodoOneMore(before, last, rows);
      ApplyOneMore(db, Todo(before, rows), last, outcome);
    }
  }
}

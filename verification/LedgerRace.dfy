/** Any number of appliers over one database at once. Each reads the ledger in three separate statements,
    so what it knows may be stale, and each may stop anywhere. */
module LedgerRace {
  import opened Base
  import opened Discover
  import opened Ledger
  import opened LedgerRuns

  type RunId = nat

  /** Where one Up stands: its three reads, then its position in the list of files. */
  datatype Run =
    | Probed(hasLedger: bool)
    | Counted(hasLedger: bool, empty: bool)
    | Inspected(empty: bool, known: Rows)
    | Applying(known: Rows, next: nat)
    | Stopped(finished: bool)

  datatype World = World(db: Db, runs: map<RunId, Run>)

  datatype Step =
    | Probe(r: RunId)            // a new Up asks whether the ledger exists
    | CountTables(r: RunId)
    | ReadRows(r: RunId)
    | Decide(r: RunId)           // refuse, or create the ledger and begin
    | Next(r: RunId, outcome: DbOutcome)
    | Stop(r: RunId)

  datatype Config = Config(ms: seq<Migration>, hasTables: Catalog)

  ghost predicate Enabled(c: Config, w: World, step: Step) {
    match step
    case Probe(r) => r !in w.runs
    case CountTables(r) => r in w.runs && w.runs[r].Probed?
    case ReadRows(r) => r in w.runs && w.runs[r].Counted? && (w.runs[r].hasLedger ==> w.db.ledger.Some?)
    case Decide(r) => r in w.runs && w.runs[r].Inspected?
    case Next(r, _) => r in w.runs && w.runs[r].Applying? && w.db.ledger.Some?
    case Stop(r) => r in w.runs
  }

  ghost function Apply(c: Config, w: World, step: Step): World
    requires Enabled(c, w, step)
  {
    match step
    case Probe(r) => w.(runs := w.runs[r := Probed(w.db.ledger.Some?)])
    case CountTables(r) => w.(runs := w.runs[r := Counted(w.runs[r].hasLedger, !c.hasTables(w.db.history))])
    case ReadRows(r) =>
      w.(runs := w.runs[r := Inspected(w.runs[r].empty, if w.runs[r].hasLedger then w.db.ledger.value else map[])])
    case Decide(r) =>
      if !w.runs[r].empty && |w.runs[r].known| == 0 then w.(runs := w.runs[r := Stopped(false)])
      else World(WithLedger(w.db),
                 w.runs[r := if Faithful(c.ms, w.runs[r].known) then Applying(w.runs[r].known, 0) else Stopped(false)])
    case Next(r, outcome) =>
      var run := w.runs[r];
      if run.next >= |c.ms| then w.(runs := w.runs[r := Stopped(true)])
      else if c.ms[run.next].version in run.known then w.(runs := w.runs[r := run.(next := run.next + 1)])
      else
        World(Tried(w.db, c.ms[run.next], outcome),
              w.runs[r := if Attempt(w.db, c.ms[run.next], outcome).Reported() then run.(next := run.next + 1)
                          else Stopped(false)])
    case Stop(r) => w.(runs := w.runs[r := Stopped(false)])
  }

  ghost function Exec(c: Config, steps: seq<Step>): Option<World> {
    if steps == [] then Some(World(EMPTY, map[]))
    else
      var w := Exec(c, steps[..|steps| - 1]);
      if w.Some? && Enabled(c, w.value, steps[|steps| - 1])
      then Some(Apply(c, w.value, steps[|steps| - 1])) else None
  }

  /** The database holds exactly the first n migrations: their DDL, once each and in order, and their rows. */
  ghost predicate HoldsPrefix(db: Db, ms: seq<Migration>, n: nat) {
    n <= |ms| && WithLedger(db) == CommitAll(WithLedger(EMPTY), ms[..n])
  }

  /** What run knows is a ledger the database has had. */
  ghost predicate RunOk(c: Config, w: World, run: Run) {
    match run
    case Probed(hasLedger) => hasLedger ==> w.db.ledger.Some?
    case Counted(hasLedger, _) => hasLedger ==> w.db.ledger.Some?
    case Inspected(_, known) => known.Keys <= RowsOf(w.db).Keys
    case Applying(known, next) =>
      && w.db.ledger.Some? && known.Keys <= w.db.ledger.value.Keys && next <= |c.ms|
      && forall i :: 0 <= i < next ==> c.ms[i].version in w.db.ledger.value
    case Stopped(finished) =>
      finished ==> w.db.ledger.Some? && forall i :: 0 <= i < |c.ms| ==> c.ms[i].version in w.db.ledger.value
  }

  ghost predicate Inv(c: Config, w: World) {
    && (exists n: nat :: HoldsPrefix(w.db, c.ms, n))
    && forall r :: r in w.runs ==> RunOk(c, w, w.runs[r])
  }

  lemma PrefixRows(db: Db, ms: seq<Migration>, n: nat)
    requires HoldsPrefix(db, ms, n)
    ensures db.history == SqlOf(ms[..n]) && RowsOf(db).Keys == VersionSet(ms[..n])
    ensures forall i :: 0 <= i < n ==> ms[i].version in RowsOf(db)
  {
    assert forall i :: 0 <= i < n ==> ms[..n][i] == ms[i];
    CommitAllHistory(WithLedger(EMPTY), ms[..n]);
  }

  /** The one place a commit can happen: the next version after the prefix. */
  lemma CommitExtends(db: Db, ms: seq<Migration>, n: nat, k: nat)
    requires Canonical(ms) && HoldsPrefix(db, ms, n) && k < |ms|
    requires forall i :: 0 <= i < k ==> ms[i].version in RowsOf(db)
    requires ms[k].version !in RowsOf(db) && db.ledger.Some?
    ensures k == n && HoldsPrefix(Commit(db, ms[k]), ms, n + 1)
  {
    PrefixRows(db, ms, n);
    if n < k {
      FreshVersion(ms, n);
    }
    assert k == n;
    assert ms[..n + 1][..n] == ms[..n];
  }

  lemma StepKeepsPrefix(c: Config, w: World, step: Step)
    requires Canonical(c.ms) && Inv(c, w) && Enabled(c, w, step)
    ensures exists n: nat :: HoldsPrefix(Apply(c, w, step).db, c.ms, n)
    ensures RowsOf(w.db).Keys <= RowsOf(Apply(c, w, step).db).Keys
    ensures w.db.ledger.Some? ==> Apply(c, w, step).db.ledger.Some?
  {
    var n: nat :| HoldsPrefix(w.db, c.ms, n);
    var w' := Apply(c, w, step);
    if step.Next? && w'.db != w.db {
      var run := w.runs[step.r];
      assert RunOk(c, w, run);
      CommitExtends(w.db, c.ms, n, run.next);
      assert HoldsPrefix(w'.db, c.ms, n + 1);
    } else {
      assert HoldsPrefix(w'.db, c.ms, n);
    }
  }

  /** What a run knows stays true while the ledger only grows. */
  lemma RunStaysOk(c: Config, w: World, w': World, run: Run)
    requires RunOk(c, w, run) && RowsOf(w.db).Keys <= RowsOf(w'.db).Keys
    requires w.db.ledger.Some? ==> w'.db.ledger.Some?
    ensures RunOk(c, w', run)
  {
  }

  lemma OwnStepIsOk(c: Config, w: World, step: Step)
    requires Canonical(c.ms) && Inv(c, w) && Enabled(c, w, step)
    requires var w' := Apply(c, w, step);
             RowsOf(w.db).Keys <= RowsOf(w'.db).Keys && (w.db.ledger.Some? ==> w'.db.ledger.Some?)
    ensures var w' := Apply(c, w, step); step.r in w'.runs && RunOk(c, w', w'.runs[step.r])
  {
    if step.r in w.runs {
      assert RunOk(c, w, w.runs[step.r]);
    }
  }

  lemma StepKeepsInv(c: Config, w: World, step: Step)
    requires Canonical(c.ms) && Inv(c, w) && Enabled(c, w, step)
    ensures Inv(c, Apply(c, w, step))
  {
    var w' := Apply(c, w, step);
    StepKeepsPrefix(c, w, step);
    OwnStepIsOk(c, w, step);
    forall r | r in w'.runs ensures RunOk(c, w', w'.runs[r]) {
      if r != step.r {
        RunStaysOk(c, w, w', w.runs[r]);
      }
    }
  }

  lemma {:induction false} Reachable(c: Config, steps: seq<Step>)
    requires Canonical(c.ms) && Exec(c, steps).Some?
    ensures Inv(c, Exec(c, steps).value)
  {
    if steps == [] {
      assert c.ms[..0] == [];
      assert HoldsPrefix(EMPTY, c.ms, 0);
    } else {
      Reachable(c, steps[..|steps| - 1]);
      StepKeepsInv(c, Exec(c, steps[..|steps| - 1]).value, steps[|steps| - 1]);
    }
  }

  /** Concurrent, crash-prone appliers over an empty database: at every moment the committed DDL is exactly a
      prefix of the version order, each migration once, and the ledger's versions are that same prefix. */
  lemma AlwaysAPrefix(c: Config, steps: seq<Step>) returns (n: nat)
    requires Canonical(c.ms) && Exec(c, steps).Some?
    ensures n <= |c.ms|
    ensures var db := Exec(c, steps).value.db;
            && db.history == SqlOf(c.ms[..n])
            && RowsOf(db).Keys == VersionSet(c.ms[..n])
            && forall i :: 0 <= i < n ==> c.ms[i].version in RowsOf(db) && RowsOf(db)[c.ms[i].version] == Row(c.ms[i])
  {
    var db := Exec(c, steps).value.db;
    Reachable(c, steps);
    n :| HoldsPrefix(db, c.ms, n);
    PrefixRows(db, c.ms, n);
    forall i | 0 <= i < n ensures c.ms[i].version in RowsOf(db) && RowsOf(db)[c.ms[i].version] == Row(c.ms[i]) {
      assert c.ms[..n][i] == c.ms[i];
      CommitAllAddsRows(WithLedger(EMPTY), c.ms[..n], i);
    }
  }

  /** An applier that finishes, whatever the others did meanwhile, finishes with the complete schema. */
  lemma FinishedMeansComplete(c: Config, steps: seq<Step>, r: RunId)
    requires Canonical(c.ms) && Exec(c, steps).Some?
    requires r in Exec(c, steps).value.runs && Exec(c, steps).value.runs[r] == Stopped(true)
    ensures Exec(c, steps).value.db == Complete(c.ms)
  {
    var w := Exec(c, steps).value;
    Reachable(c, steps);
    assert RunOk(c, w, w.runs[r]);
    var n: nat :| HoldsPrefix(w.db, c.ms, n);
    PrefixRows(w.db, c.ms, n);
    if n < |c.ms| {
      FreshVersion(c.ms, n);
    }
    assert c.ms[..n] == c.ms;
  }

  // ---------------------------------------------------------------- a lone run is among them

  /** A run that began on the empty database and has applied the first k files. */
  function Along(c: Config, r: RunId, k: nat): World
    requires k <= |c.ms|
  {
    World(CommitAll(WithLedger(EMPTY), c.ms[..k]), map[r := Applying(map[], k)])
  }

  lemma StepOn(c: Config, steps: seq<Step>, w: World, step: Step) returns (more: seq<Step>)
    requires Exec(c, steps) == Some(w) && Enabled(c, w, step)
    ensures Exec(c, more) == Some(Apply(c, w, step))
  {
    more := steps + [step];
    assert more[..|steps|] == steps;
  }

  lemma BeginsAlone(c: Config, r: RunId) returns (steps: seq<Step>)
    requires !c.hasTables([])
    ensures Exec(c, steps) == Some(Along(c, r, 0))
  {
    var w := World(EMPTY, map[]);
    steps := StepOn(c, [], w, Probe(r));
    w := Apply(c, w, Probe(r));
    steps := StepOn(c, steps, w, CountTables(r));
    w := Apply(c, w, CountTables(r));
    steps := StepOn(c, steps, w, ReadRows(r));
    w := Apply(c, w, ReadRows(r));
    steps := StepOn(c, steps, w, Decide(r));
    w := Apply(c, w, Decide(r));
    assert c.ms[..0] == [];
    assert w.runs == map[r := Applying(map[], 0)];
  }

  lemma NextAlone(c: Config, r: RunId, k: nat)
    requires Canonical(c.ms) && k < |c.ms|
    ensures Enabled(c, Along(c, r, k), Next(r, DbOutcome.Applied))
    ensures Apply(c, Along(c, r, k), Next(r, DbOutcome.Applied)) == Along(c, r, k + 1)
  {
    CommitAllHistory(WithLedger(EMPTY), c.ms[..k]);
    FreshVersion(c.ms, k);
    assert c.ms[..k + 1][..k] == c.ms[..k];
  }

  lemma {:induction false} GoesAlong(c: Config, r: RunId, k: nat) returns (steps: seq<Step>)
    requires Canonical(c.ms) && !c.hasTables([]) && k <= |c.ms|
    ensures Exec(c, steps) == Some(Along(c, r, k))
  {
    if k == 0 {
      steps := BeginsAlone(c, r);
    } else {
      steps := GoesAlong(c, r, k - 1);
      NextAlone(c, r, k - 1);
      steps := StepOn(c, steps, Along(c, r, k - 1), Next(r, DbOutcome.Applied));
    }
  }

  /** Undisturbed, an applier finishes, with the complete schema. */
  lemma LoneRunFinishes(c: Config, r: RunId) returns (steps: seq<Step>)
    requires Canonical(c.ms) && !c.hasTables([])
    ensures Exec(c, steps) == Some(World(Complete(c.ms), map[r := Stopped(true)]))
  {
    steps := GoesAlong(c, r, |c.ms|);
    steps := StepOn(c, steps, Along(c, r, |c.ms|), Next(r, DbOutcome.Applied));
    assert c.ms[..|c.ms|] == c.ms;
    assert map[r := Applying(map[], |c.ms|)][r := Stopped(true)] == map[r := Stopped(true)];
  }
}

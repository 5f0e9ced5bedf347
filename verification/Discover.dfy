/** Finding the migrations: the file-name grammar, the duplicate refusal, the order by version. */
module Discover {
  import opened Base

  /** SHA-256 as an ideal function; Foreign is any other text a ledger may hold. */
  datatype Checksum = Sha256(sql: string) | Foreign(text: string)

  datatype Migration = Migration(version: nat, name: string, path: string, sql: string, checksum: Checksum)

  /** One thing the directory walk visits. content is None when reading the file fails. */
  datatype Entry = Unwalkable | Directory(path: string) | File(path: string, content: Option<string>)

  datatype Outcome =
    | Found(migrations: seq<Migration>)
    | WalkFailed
    | Unreadable(path: string)
    | Duplicate(version: nat, first: string, second: string)
    | NothingFound

  // ---------------------------------------------------------------- the file name

  /** The last element of a slash-separated path. */
  function LastElement(path: string): string {
    if path == [] then []
    else if path[|path| - 1] == '/' then []
    else LastElement(path[..|path| - 1]) + [path[|path| - 1]]
  }

  const SUFFIX := ".up.sql"

  predicate AllDigits(s: string) {
    forall i :: 0 <= i < |s| ==> '0' <= s[i] <= '9'
  }

  /** ^(\d{6})_(.+)\.up\.sql$ */
  predicate Named(base: string) {
    && |base| >= 15
    && AllDigits(base[..6]) && base[6] == '_'
    && base[|base| - 7..] == SUFFIX
    && '\n' !in base[7..|base| - 7]
  }

  function Number(digits: string): nat
    requires AllDigits(digits)
  {
    if digits == [] then 0
    else Number(digits[..|digits| - 1]) * 10 + (digits[|digits| - 1] - '0') as nat
  }

  predicate Relevant(e: Entry) {
    e.File? && Named(LastElement(e.path))
  }

  function Version(e: Entry): nat
    requires Relevant(e)
  {
    Number(LastElement(e.path)[..6])
  }

  function Read(e: Entry): Migration
    requires Relevant(e) && e.content.Some?
  {
    var base := LastElement(e.path);
    Migration(Version(e), base[7..|base| - 7], e.path, e.content.value, Sha256(e.content.value))
  }

  // ---------------------------------------------------------------- what discovery must answer

  ghost predicate Canonical(ms: seq<Migration>) {
    && (forall i, j :: 0 <= i < j < |ms| ==> ms[i].version < ms[j].version)
    && (forall i :: 0 <= i < |ms| ==> ms[i].checksum == Sha256(ms[i].sql))
  }

  /** Everything visited is readable and no two migrations share a number. */
  ghost predicate Coherent(entries: seq<Entry>) {
    && (forall i :: 0 <= i < |entries| ==> entries[i] != Unwalkable)
    && (forall i :: 0 <= i < |entries| && Relevant(entries[i]) ==> entries[i].content.Some?)
    && (forall i, j :: 0 <= i < j < |entries| && Relevant(entries[i]) && Relevant(entries[j]) ==>
          Version(entries[i]) != Version(entries[j]))
  }

  ghost predicate Describes(ms: seq<Migration>, entries: seq<Entry>) {
    && (forall m :: m in ms ==>
          exists i :: 0 <= i < |entries| && Relevant(entries[i]) && entries[i].content.Some? && Read(entries[i]) == m)
    && (forall i :: 0 <= i < |entries| && Relevant(entries[i]) && entries[i].content.Some? ==> Read(entries[i]) in ms)
  }

  /** The answer: the canonical list of exactly the migrations visited, or a reason it cannot be given. */
  ghost predicate Answers(entries: seq<Entry>, r: Outcome) {
    match r
    case Found(ms) => Coherent(entries) && ms != [] && Canonical(ms) && Describes(ms, entries)
    case NothingFound => Coherent(entries) && forall i :: 0 <= i < |entries| ==> !Relevant(entries[i])
    case WalkFailed => Unwalkable in entries
    case Unreadable(path) =>
      exists i :: 0 <= i < |entries| && Relevant(entries[i]) && entries[i].path == path && entries[i].content.None?
    case Duplicate(v, p, q) =>
      exists i, j :: 0 <= i < j < |entries| && Relevant(entries[i]) && Relevant(entries[j])
        && Version(entries[i]) == Version(entries[j]) == v && entries[i].path == p && entries[j].path == q
  }

  // ---------------------------------------------------------------- sorting by version

  function Insert(ms: seq<Migration>, m: Migration): (r: seq<Migration>)
    ensures |r| == |ms| + 1
    ensures forall x :: x in r <==> x == m || x in ms
  {
    if ms == [] then [m]
    else if m.version < ms[0].version then [m] + ms
    else
      var r := [ms[0]] + Insert(ms[1..], m);
      assert forall x :: x in ms <==> x == ms[0] || x in ms[1..];
      r
  }

  lemma {:induction false} InsertKeepsCanonical(ms: seq<Migration>, m: Migration)
    requires Canonical(ms) && m.checksum == Sha256(m.sql)
    requires forall x :: x in ms ==> x.version != m.version
    ensures Canonical(Insert(ms, m))
  {
    if ms != [] && m.version >= ms[0].version {
      assert ms[0] in ms;
      InsertKeepsCanonical(ms[1..], m);
      var t := Insert(ms[1..], m);
      forall k | 0 <= k < |t| ensures ms[0].version < t[k].version {
        assert t[k] in t;
        assert t[k] == m || t[k] in ms[1..];
      }
    }
  }

  method SortByVersion(out: seq<Migration>) returns (ms: seq<Migration>)
    requires forall i, j :: 0 <= i < j < |out| ==> out[i].version != out[j].version
    requires forall i :: 0 <= i < |out| ==> out[i].checksum == Sha256(out[i].sql)
    ensures |ms| == |out| && Canonical(ms) && forall m :: m in ms <==> m in out
  {
    ms := [];
    for k := 0 to |out|
      invariant |ms| == k && Canonical(ms) && forall m :: m in ms <==> m in out[..k]
    {
      InsertKeepsCanonical(ms, out[k]);
      ms := Insert(ms, out[k]);
      assert out[..k + 1] == out[..k] + [out[k]];
    }
    assert out[..|out|] == out;
  }

  // ---------------------------------------------------------------- the walk

  /** What the walk has established after the entries `before`. */
  ghost predicate Walked(before: seq<Entry>, out: seq<Migration>, seen: map<nat, string>) {
    && Coherent(before)
    && Describes(out, before)
    && (forall i, j :: 0 <= i < j < |out| ==> out[i].version != out[j].version)
    && (forall i :: 0 <= i < |out| ==> out[i].checksum == Sha256(out[i].sql) && out[i].version in seen)
    && (forall v :: v in seen ==> Claims(before, v, seen[v]))
    && (forall i :: 0 <= i < |before| && Relevant(before[i]) ==> Version(before[i]) in seen)
    && (out == [] ==> forall i :: 0 <= i < |before| ==> !Relevant(before[i]))
  }

  ghost predicate Claims(before: seq<Entry>, v: nat, path: string) {
    exists i :: 0 <= i < |before| && Relevant(before[i]) && Version(before[i]) == v && before[i].path == path
  }

  lemma ClaimsStay(before: seq<Entry>, e: Entry, v: nat, path: string)
    requires Claims(before, v, path)
    ensures Claims(before + [e], v, path)
  {
    var i :| 0 <= i < |before| && Relevant(before[i]) && Version(before[i]) == v && before[i].path == path;
    assert (before + [e])[i] == before[i];
  }

  lemma DescribesOneMore(out: seq<Migration>, before: seq<Entry>, e: Entry, out': seq<Migration>)
    requires Describes(out, before)
    requires out' == if Relevant(e) && e.content.Some? then out + [Read(e)] else out
    ensures Describes(out', before + [e])
  {
    var after := before + [e];
    forall m | m in out'
      ensures exists i :: 0 <= i < |after| && Relevant(after[i]) && after[i].content.Some? && Read(after[i]) == m
    {
      if m in out {
        var i :| 0 <= i < |before| && Relevant(before[i]) && before[i].content.Some? && Read(before[i]) == m;
        assert after[i] == before[i];
      } else {
        assert after[|before|] == e;
      }
    }
  }

  lemma CoherentOneMore(before: seq<Entry>, e: Entry)
    requires Coherent(before) && e != Unwalkable
    requires Relevant(e) ==>
      e.content.Some? && forall i :: 0 <= i < |before| && Relevant(before[i]) ==> Version(before[i]) != Version(e)
    ensures Coherent(before + [e])
  {
  }

  lemma WalkPast(before: seq<Entry>, e: Entry, out: seq<Migration>, seen: map<nat, string>)
    requires Walked(before, out, seen) && e != Unwalkable && !Relevant(e)
    ensures Walked(before + [e], out, seen)
  {
    CoherentOneMore(before, e);
    DescribesOneMore(out, before, e, out);
    forall v | v in seen ensures Claims(before + [e], v, seen[v]) {
      ClaimsStay(before, e, v, seen[v]);
    }
  }

  lemma WalkOn(before: seq<Entry>, e: Entry, version: nat, out: seq<Migration>, seen: map<nat, string>)
    requires Walked(before, out, seen) && Relevant(e) && e.content.Some? && version == Version(e) && version !in seen
    ensures Walked(before + [e], out + [Read(e)], seen[version := e.path])
  {
    CoherentOneMore(before, e);
    DescribesOneMore(out, before, e, out + [Read(e)]);
    var seen' := seen[version := e.path];
    forall v | v in seen' ensures Claims(before + [e], v, seen'[v]) {
      if v == version {
        assert (before + [e])[|before|] == e;
      } else {
        ClaimsStay(before, e, v, seen[v]);
      }
    }
  }

  method Discover(entries: seq<Entry>) returns (r: Outcome)
    ensures Answers(entries, r)
  {
    var out: seq<Migration> := [];
    var seen: map<nat, string> := map[];
    for k := 0 to |entries|
      invariant Walked(entries[..k], out, seen)
    {
      var e := entries[k];
      RefusedAt(entries, k);
      if e == Unwalkable {
        return WalkFailed;
      }
      if e.File? && Named(LastElement(e.path)) {
        var version := Version(e);
        if version in seen {
          DuplicateFound(entries, k, seen);
          return Duplicate(version, seen[version], e.path);
        }
        if e.content.None? {
          return Unreadable(e.path);
        }
        WalkOn(entries[..k], e, version, out, seen);
        seen := seen[version := e.path];
        out := out + [Read(e)];
      } else {
        WalkPast(entries[..k], e, out, seen);
      }
      assert entries[..k + 1] == entries[..k] + [e];
    }
    assert entries[..|entries|] == entries;
    if |out| == 0 {
      return NothingFound;
    }
    var ms := SortByVersion(out);
    SortedAnswers(entries, out, seen, ms);
    return Found(ms);
  }

  lemma RefusedAt(entries: seq<Entry>, k: nat)
    requires k < |entries|
    ensures entries[k] == Unwalkable ==> Answers(entries, WalkFailed)
    ensures Relevant(entries[k]) && entries[k].content.None? ==> Answers(entries, Unreadable(entries[k].path))
  {
  }

  lemma SortedAnswers(entries: seq<Entry>, out: seq<Migration>, seen: map<nat, string>, ms: seq<Migration>)
    requires Walked(entries, out, seen) && out != [] && |ms| == |out| && Canonical(ms)
    requires forall m :: m in ms <==> m in out
    ensures Answers(entries, Found(ms))
  {
  }

  lemma DuplicateFound(entries: seq<Entry>, k: nat, seen: map<nat, string>)
    requires k < |entries| && Relevant(entries[k]) && Version(entries[k]) in seen
    requires Claims(entries[..k], Version(entries[k]), seen[Version(entries[k])])
    ensures Answers(entries, Duplicate(Version(entries[k]), seen[Version(entries[k])], entries[k].path))
  {
    var v := Version(entries[k]);
    var i :| 0 <= i < k && Relevant(entries[..k][i]) && Version(entries[..k][i]) == v && entries[..k][i].path == seen[v];
    assert entries[i] == entries[..k][i];
  }

  // ---------------------------------------------------------------- the answer does not depend on the walk

  lemma NeitherIsEmptyAlone<T>(a: seq<T>, b: seq<T>)
    requires forall x :: x in a <==> x in b
    ensures a == [] <==> b == []
  {
    if a != [] {
      assert a[0] in b;
    }
    if b != [] {
      assert b[0] in a;
    }
  }

  lemma {:induction false} CanonicalIsUnique(a: seq<Migration>, b: seq<Migration>)
    requires Canonical(a) && Canonical(b) && forall m :: m in a <==> m in b
    ensures a == b
  {
    NeitherIsEmptyAlone(a, b);
    if a != [] {
      assert a[0] in a;
      assert b[0] in b;
      assert a[0] == b[0];
      forall m ensures m in a[1..] <==> m in b[1..] {
        assert m in a <==> m == a[0] || m in a[1..];
        assert m in b <==> m == b[0] || m in b[1..];
      }
      CanonicalIsUnique(a[1..], b[1..]);
    }
  }

  /** A rearrangement: the same entries, each as often, in another order. */
  ghost predicate Rearranged(e1: seq<Entry>, e2: seq<Entry>) {
    multiset(e1) == multiset(e2)
  }

  lemma RearrangedMembers(e1: seq<Entry>, e2: seq<Entry>)
    requires Rearranged(e1, e2)
    ensures forall e :: e in e1 <==> e in e2
  {
    forall e ensures e in e1 <==> e in e2 {
      assert e in e1 <==> e in multiset(e1);
      assert e in e2 <==> e in multiset(e2);
    }
  }

  /** An incoherent walk stays incoherent in any order, because two entries claiming one number either
      differ or occur twice. */
  lemma CoherentRearranged(e1: seq<Entry>, e2: seq<Entry>)
    requires Rearranged(e1, e2) && Coherent(e1)
    ensures Coherent(e2)
  {
    RearrangedMembers(e1, e2);
    forall i | 0 <= i < |e2| ensures e2[i] != Unwalkable && (Relevant(e2[i]) ==> e2[i].content.Some?) {
      assert e2[i] in e1;
    }
    forall i, j | 0 <= i < j < |e2| && Relevant(e2[i]) && Relevant(e2[j])
      ensures Version(e2[i]) != Version(e2[j])
    {
      assert e2[i] in e1 && e2[j] in e1;
      if e2[i] == e2[j] {
        Twice(e2, i, j);
        OnceIn(e1, e2[i]);
        assert false;
      }
    }
  }

  lemma Twice(s: seq<Entry>, i: nat, j: nat)
    requires i < j < |s| && s[i] == s[j]
    ensures multiset(s)[s[i]] >= 2
  {
    assert s == s[..j] + [s[j]] + s[j + 1..];
    assert s[i] in s[..j];
  }

  lemma {:induction false} OnceIn(s: seq<Entry>, e: Entry)
    requires Coherent(s) && Relevant(e)
    ensures multiset(s)[e] <= 1
  {
    if s != [] {
      var n := |s| - 1;
      assert s == s[..n] + [s[n]];
      if s[n] == e {
        assert e !in s[..n];
        assert multiset(s[..n])[e] == 0;
      } else {
        OnceIn(s[..n], e);
      }
    }
  }

  /** Discovery is canonical: whatever order the directories are walked in, either every order finds the
      same list or every order refuses. */
  lemma WalkOrderIsIrrelevant(e1: seq<Entry>, r1: Outcome, e2: seq<Entry>, r2: Outcome)
    requires Rearranged(e1, e2) && Answers(e1, r1) && Answers(e2, r2)
    ensures r1.Found? <==> r2.Found?
    ensures r1.Found? ==> r1.migrations == r2.migrations
  {
    RefusalsAreSound(e1, r1);
    RefusalsAreSound(e2, r2);
    RearrangedMembers(e1, e2);
    assert Rearranged(e2, e1);
    if Coherent(e1) {
      CoherentRearranged(e1, e2);
    } else if Coherent(e2) {
      CoherentRearranged(e2, e1);
    }
    if r1.Found? && r2.Found? {
      SameList(e1, r1.migrations, e2, r2.migrations);
    } else if r1.Found? {
      NonEmptyEverywhere(e1, r1.migrations, e2);
    } else if r2.Found? {
      NonEmptyEverywhere(e2, r2.migrations, e1);
    }
  }

  lemma RefusalsAreSound(entries: seq<Entry>, r: Outcome)
    requires Answers(entries, r)
    ensures (r.Found? || r.NothingFound?) <==> Coherent(entries)
  {
  }

  lemma NonEmptyEverywhere(e1: seq<Entry>, ms: seq<Migration>, e2: seq<Entry>)
    requires Describes(ms, e1) && ms != [] && forall e :: e in e1 <==> e in e2
    ensures exists i :: 0 <= i < |e2| && Relevant(e2[i])
  {
    assert ms[0] in ms;
    var i :| 0 <= i < |e1| && Relevant(e1[i]) && e1[i].content.Some? && Read(e1[i]) == ms[0];
    assert e1[i] in e2;
  }

  lemma SameList(e1: seq<Entry>, a: seq<Migration>, e2: seq<Entry>, b: seq<Migration>)
    requires Describes(a, e1) && Describes(b, e2) && Canonical(a) && Canonical(b)
    requires forall e :: e in e1 <==> e in e2
    ensures a == b
  {
    forall m ensures m in a <==> m in b {
      if m in a {
        var i :| 0 <= i < |e1| && Relevant(e1[i]) && e1[i].content.Some? && Read(e1[i]) == m;
        assert e1[i] in e2;
      }
      if m in b {
        var i :| 0 <= i < |e2| && Relevant(e2[i]) && e2[i].content.Some? && Read(e2[i]) == m;
        assert e2[i] in e1;
      }
    }
    CanonicalIsUnique(a, b);
  }
}

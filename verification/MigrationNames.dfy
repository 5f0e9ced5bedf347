/** What a migration file's name says: its number, its slug, and its place in the order. */
module MigrationNames {
  import opened Base
  import Uuids
  import opened Discover

  // ---------------------------------------------------------------- six digits

  function Zeros(n: nat): string { seq(n, _ => '0') }

  /** %06d. */
  function Padded(n: nat): string {
    var d := Uuids.Digits(n);
    Zeros(if |d| < 6 then 6 - |d| else 0) + d
  }

  lemma NumberLast(s: string, c: char)
    requires AllDigits(s + [c])
    ensures AllDigits(s) && Number(s + [c]) == Number(s) * 10 + (c as int - '0' as int)
  {
    assert (s + [c])[..|s|] == s;
    forall i | 0 <= i < |s| ensures '0' <= s[i] <= '9' {
      assert (s + [c])[i] == s[i];
    }
    assert (s + [c])[|s|] == c;
  }

  lemma {:induction false} DigitsRead(n: nat)
    ensures AllDigits(Uuids.Digits(n)) && Number(Uuids.Digits(n)) == n
  {
    if n < 10 {
      NumberLast("", Uuids.DigitChar(n));
      assert "" + [Uuids.DigitChar(n)] == Uuids.Digits(n);
    } else {
      DigitsRead(n / 10);
      NumberLast(Uuids.Digits(n / 10), Uuids.DigitChar(n % 10));
    }
  }

  lemma NumberFront(s: string) returns (front: string, last: char)
    requires s != "" && AllDigits(s)
    ensures s == front + [last] && front == s[..|s| - 1] && AllDigits(front) && '0' <= last <= '9'
    ensures Number(s) == Number(front) * 10 + (last as int - '0' as int)
  {
    front, last := s[..|s| - 1], s[|s| - 1];
    assert s == front + [last];
    NumberLast(front, last);
  }

  lemma AppendDigit(s: string, c: char)
    requires AllDigits(s) && '0' <= c <= '9'
    ensures AllDigits(s + [c]) && Number(s + [c]) == Number(s) * 10 + (c as int - '0' as int)
  {
    assert AllDigits(s + [c]);
    NumberLast(s, c);
  }

  lemma {:induction false} ZerosAreNothing(k: nat)
    ensures AllDigits(Zeros(k)) && Number(Zeros(k)) == 0
  {
    if k > 0 {
      ZerosAreNothing(k - 1);
      assert Zeros(k) == Zeros(k - 1) + ['0'];
      NumberLast(Zeros(k - 1), '0');
    }
  }

  lemma {:induction false} ZerosRead(k: nat, d: string)
    requires AllDigits(d)
    ensures AllDigits(Zeros(k) + d) && Number(Zeros(k) + d) == Number(d)
  {
    if d == "" {
      ZerosAreNothing(k);
      assert Zeros(k) + d == Zeros(k);
    } else {
      var front, last := NumberFront(d);
      ZerosRead(k, front);
      AppendDigit(Zeros(k) + front, last);
      assert Zeros(k) + d == (Zeros(k) + front) + [last];
    }
  }

  function PowerOfTen(k: nat): nat { if k == 0 then 1 else 10 * PowerOfTen(k - 1) }

  lemma {:induction false} DigitsShort(n: nat, k: nat)
    requires 0 < k && n < PowerOfTen(k)
    ensures |Uuids.Digits(n)| <= k
  {
    if n >= 10 {
      assert PowerOfTen(k) == 10 * PowerOfTen(k - 1);
      DigitsShort(n / 10, k - 1);
    }
  }

  lemma PaddedReads(n: nat)
    requires n < 1_000_000
    ensures |Padded(n)| == 6 && AllDigits(Padded(n)) && Number(Padded(n)) == n
  {
    assert PowerOfTen(6) == 1_000_000 by {
      assert PowerOfTen(2) == 100 && PowerOfTen(4) == 10_000;
    }
    DigitsShort(n, 6);
    DigitsRead(n);
    ZerosRead(6 - |Uuids.Digits(n)|, Uuids.Digits(n));
  }

  /** Equally many digits compare as numbers the way they compare as texts. */
  lemma {:induction false} NumberOrder(a: string, b: string)
    requires |a| == |b| && AllDigits(a) && AllDigits(b)
    ensures Number(a) == Number(b) <==> a == b
    ensures Number(a) < Number(b) <==> LexBefore(a, b)
  {
    if a != "" {
      var p, x := NumberFront(a);
      var q, y := NumberFront(b);
      NumberOrder(p, q);
      LexLast(p, x, q, y);
    }
  }

  lemma {:induction false} NumberBelow(s: string)
    requires AllDigits(s)
    ensures Number(s) < PowerOfTen(|s|)
  {
    if s != "" {
      var front, last := NumberFront(s);
      NumberBelow(front);
    }
  }

  // ---------------------------------------------------------------- the grammar

  ghost predicate Spelled(base: string, digits: string, slug: string) {
    |digits| == 6 && AllDigits(digits) && slug != "" && '\n' !in slug && base == digits + "_" + slug + ".up.sql"
  }

  lemma SpelledIsNamed(base: string, digits: string, slug: string)
    requires Spelled(base, digits, slug)
    ensures Named(base) && base[..6] == digits && base[7..|base| - 7] == slug
  {
    assert base[..6] == digits;
    assert base[6] == '_';
    assert base[7..|base| - 7] == slug;
    assert base[|base| - 7..] == ".up.sql";
  }

  /** Exactly the names of six digits, an underscore, a slug and the suffix are migrations: not .down.sql,
      not seven digits, not an empty slug. */
  lemma NamedIff(base: string)
    ensures Named(base) <==> exists digits, slug :: Spelled(base, digits, slug)
  {
    if Named(base) {
      assert base == base[..6] + "_" + base[7..|base| - 7] + base[|base| - 7..];
      assert Spelled(base, base[..6], base[7..|base| - 7]);
    }
    if digits, slug :| Spelled(base, digits, slug) {
      SpelledIsNamed(base, digits, slug);
    }
  }

  lemma {:induction false} LastElementOf(dir: string, base: string)
    requires dir == "" || dir[|dir| - 1] == '/'
    requires '/' !in base
    ensures LastElement(dir + base) == base
  {
    if base == "" {
      assert dir + base == dir;
    } else {
      var s, c := base[..|base| - 1], base[|base| - 1];
      assert c in base;
      assert (dir + base)[..|dir + base| - 1] == dir + s;
      LastElementOf(dir, s);
      assert base == s + [c];
    }
  }

  // ---------------------------------------------------------------- files

  /** A migration file somewhere in the tree: internal/user/migrations/000001_init_users.up.sql. */
  datatype Source = Source(dir: string, number: nat, slug: string, sql: string) {
    predicate Fits() {
      && (dir == "" || dir[|dir| - 1] == '/')
      && number < 1_000_000 && slug != "" && '\n' !in slug && '/' !in slug
    }

    function Path(): string { dir + (Padded(number) + "_" + slug + ".up.sql") }
  }

  function EntryOf(f: Source): Entry { File(f.Path(), Some(f.sql)) }

  function MigrationOf(f: Source): Migration {
    Migration(f.number, f.slug, f.Path(), f.sql, Sha256(f.sql))
  }

  /** A file called after its number is found under that number. */
  lemma FileIsRead(f: Source)
    requires f.Fits()
    ensures Relevant(EntryOf(f)) && Read(EntryOf(f)) == MigrationOf(f)
  {
    PaddedReads(f.number);
    var base := Padded(f.number) + "_" + f.slug + ".up.sql";
    forall c | c in base ensures c != '/' {
      assert c in Padded(f.number) || c == '_' || c in f.slug || c in ".up.sql";
    }
    LastElementOf(f.dir, base);
    SpelledIsNamed(base, Padded(f.number), f.slug);
  }

  /** Two migrations share a version exactly when their six digits are the same, and versions follow the
      dictionary order of the digits. */
  lemma VersionsFollowDigits(a: Entry, b: Entry)
    requires Relevant(a) && Relevant(b)
    ensures var x, y := LastElement(a.path)[..6], LastElement(b.path)[..6];
            && (Version(a) == Version(b) <==> x == y)
            && (Version(a) < Version(b) <==> LexBefore(x, y))
            && Version(a) < 1_000_000
  {
    var x, y := LastElement(a.path)[..6], LastElement(b.path)[..6];
    NumberOrder(x, y);
    NumberBelow(x);
    assert PowerOfTen(6) == 1_000_000 by {
      assert PowerOfTen(2) == 100 && PowerOfTen(4) == 10_000;
    }
  }

  function Entries(files: seq<Source>): (entries: seq<Entry>)
    ensures |entries| == |files|
  {
    seq(|files|, i requires 0 <= i < |files| => EntryOf(files[i]))
  }

  /** Discovery over numbered files, whatever directories they lie in: if no number is used twice it finds
      each under its own number with its slug, path, text and checksum, in the order of the numbers, and
      nothing else; if one is used twice it refuses. */
  lemma FoundByNumber(files: seq<Source>, r: Outcome)
    requires files != [] && forall i :: 0 <= i < |files| ==> files[i].Fits()
    requires Answers(Entries(files), r)
    ensures r.Found? <==> forall i, j :: 0 <= i < j < |files| ==> files[i].number != files[j].number
    ensures r.Found? ==>
              && (forall m :: m in r.migrations <==> exists i :: 0 <= i < |files| && MigrationOf(files[i]) == m)
              && (forall i, j :: 0 <= i < j < |r.migrations| ==> r.migrations[i].version < r.migrations[j].version)
    ensures !r.Found? ==> r.Duplicate?
  {
    var entries := Entries(files);
    forall i | 0 <= i < |files|
      ensures Relevant(entries[i]) && entries[i].content.Some? && Read(entries[i]) == MigrationOf(files[i])
    {
      FileIsRead(files[i]);
    }
    assert forall i :: 0 <= i < |files| ==> Version(entries[i]) == files[i].number;
    RefusalsAreSound(entries, r);
    assert Relevant(entries[0]);
  }
}

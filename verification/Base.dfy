/** Small vocabulary shared by every component. */
module Base {

  datatype Option<+T> = None | Some(value: T)

  /** How one database statement or transaction ends for the caller: it took effect and said so,
      it took effect but the caller saw an error, or it had no effect and the caller saw an error. */
  datatype DbOutcome = Applied | AckLost | NotApplied {
    predicate TookEffect() { this != NotApplied }
    predicate Reported() { this == Applied }
  }

  /** Heard: the receiver handled the request and the answer arrived. AnswerLost: it handled it, but the
      sender saw an error. Unheard: an error before the receiver handled it. */
  datatype SendOutcome = Heard | AnswerLost | Unheard

  predicate HasPrefix(s: string, prefix: string) {
    |prefix| <= |s| && s[..|prefix|] == prefix
  }

  /** a comes before b in the dictionary, when they are equally long. */
  ghost predicate LexBefore(a: string, b: string) {
    exists i :: 0 <= i < |a| && i < |b| && a[..i] == b[..i] && a[i] < b[i]
  }

  lemma LexLast(a: string, x: char, b: string, y: char)
    requires |a| == |b|
    ensures LexBefore(a + [x], b + [y]) <==> LexBefore(a, b) || (a == b && x < y)
  {
    var a', b' := a + [x], b + [y];
    if i :| 0 <= i < |a| && a[..i] == b[..i] && a[i] < b[i] {
      assert a'[..i] == a[..i] && b'[..i] == b[..i] && a'[i] < b'[i];
    }
    if a == b && x < y {
      assert a'[..|a|] == b'[..|a|] && a'[|a|] < b'[|a|];
    }
    if i :| 0 <= i < |a'| && a'[..i] == b'[..i] && a'[i] < b'[i] {
      assert a[..i] == a'[..i] && b[..i] == b'[..i];
      assert i == |a| ==> a == a[..i] && b == b[..i];
    }
  }

  ghost predicate Distinct<T(!new)>(s: seq<T>) {
    forall i, j :: 0 <= i < j < |s| ==> s[i] != s[j]
  }

  function Count<T(==)>(s: seq<T>, x: T): nat {
    if s == [] then 0 else (if s[|s| - 1] == x then 1 else 0) + Count(s[..|s| - 1], x)
  }

  lemma {:induction false} CountPositive<T>(s: seq<T>, x: T)
    ensures (Count(s, x) > 0) <==> x in s
  {
    if s != [] {
      CountPositive(s[..|s| - 1], x);
      assert s == s[..|s| - 1] + [s[|s| - 1]];
    }
  }
}

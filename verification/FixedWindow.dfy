/** The fixed-window counter that both limiters are instances of, and how much it can let through. */
module FixedWindow {

  datatype Window = Closed | Open(count: nat, resetAt: int)

  /** One request at time `now`: the window after it, and whether it is let through. A request after
      resetAt opens a new window. */
  function Hit(w: Window, now: int, max: nat, length: int): (Window, bool) {
    if w.Closed? || now > w.resetAt then (Open(1, now + length), true)
    else if w.count >= max then (w, false)
    else (Open(w.count + 1, w.resetAt), true)
  }

  function WindowAfter(times: seq<int>, max: nat, length: int): Window {
    if times == [] then Closed
    else Hit(WindowAfter(times[..|times| - 1], max, length), times[|times| - 1], max, length).0
  }

  /** Is the last request let through? */
  predicate LastAllowed(times: seq<int>, max: nat, length: int)
    requires times != []
  {
    Hit(WindowAfter(times[..|times| - 1], max, length), times[|times| - 1], max, length).1
  }

  /** Requests let through at times between a and b, both included. */
  function AllowedIn(times: seq<int>, max: nat, length: int, a: int, b: int): nat {
    if times == [] then 0
    else
      AllowedIn(times[..|times| - 1], max, length, a, b) +
      (if LastAllowed(times, max, length) && a <= times[|times| - 1] <= b then 1 else 0)
  }

  ghost predicate NonDecreasing(times: seq<int>) {
    forall i, j :: 0 <= i <= j < |times| ==> times[i] <= times[j]
  }

  /** The sharp account behind the rate bound: how much of [a, a + length] the current window and the
      one before it can have used. */
  lemma {:induction false} Account(times: seq<int>, max: nat, length: int, a: int)
    requires NonDecreasing(times) && times != [] && max > 0 && length > 0
    ensures var w, n := WindowAfter(times, max, length), AllowedIn(times, max, length, a, a + length);
            && w.Open? && 1 <= w.count <= max
            && var start, last := w.resetAt - length, times[|times| - 1];
               && start <= last <= w.resetAt
               && (last < a ==> n == 0)
               && n <= (if start < a then w.count - 1 else if start == a then w.count
                        else if start <= a + length then max - 1 + w.count else 2 * max - 1)
  {
    var before := times[..|times| - 1];
    if before != [] {
      Account(before, max, length, a);
    }
  }

  /** Within any closed interval as long as the window, at most 2 * max - 1 requests get through. */
  lemma RateBound(times: seq<int>, max: nat, length: int, a: int)
    requires NonDecreasing(times) && max > 0 && length > 0
    ensures AllowedIn(times, max, length, a, a + length) <= 2 * max - 1
  {
    if times != [] {
      Account(times, max, length, a);
    }
  }

  /** Within the current window exactly `count` requests got through, never more than max. */
  lemma {:induction false} WindowBound(times: seq<int>, max: nat, length: int)
    requires NonDecreasing(times) && times != [] && max > 0 && length > 0
    ensures var w := WindowAfter(times, max, length);
            && w.Open? && w.resetAt - length <= times[|times| - 1] <= w.resetAt
            && AllowedIn(times, max, length, w.resetAt - length, w.resetAt) == w.count <= max
  {
    var n := |times| - 1;
    var before, now := times[..n], times[n];
    if before != [] {
      WindowBound(before, max, length);
      var w := WindowAfter(before, max, length);
      if now > w.resetAt {
        NothingLater(before, max, length, now, now + length);
      }
    }
  }

  /** The same for every window ever opened, whatever came after it: later windows begin after it ends. */
  lemma {:induction false} EveryWindowBound(times: seq<int>, n: nat, max: nat, length: int)
    requires NonDecreasing(times) && 0 < n <= |times| && max > 0 && length > 0
    ensures var w, last := WindowAfter(times[..n], max, length), WindowAfter(times, max, length);
            && w.Open? && last.Open?
            && (last.resetAt == w.resetAt || last.resetAt - length > w.resetAt)
            && AllowedIn(times, max, length, w.resetAt - length, w.resetAt) <= max
  {
    WindowBound(times, max, length);
    if n == |times| {
      assert times[..n] == times;
    } else {
      var before := times[..|times| - 1];
      assert before[..n] == times[..n];
      WindowBound(before, max, length);
      EveryWindowBound(before, n, max, length);
    }
  }

  lemma {:induction false} NothingLater(times: seq<int>, max: nat, length: int, a: int, b: int)
    requires forall i :: 0 <= i < |times| ==> times[i] < a
    ensures AllowedIn(times, max, length, a, b) == 0
  {
    if times != [] {
      NothingLater(times[..|times| - 1], max, length, a, b);
    }
  }

  // ---------------------------------------------------------------- the bound is reached

  lemma Append(times: seq<int>, t: int, max: nat, length: int, a: int, b: int)
    ensures var w := WindowAfter(times, max, length);
            && WindowAfter(times + [t], max, length) == Hit(w, t, max, length).0
            && AllowedIn(times + [t], max, length, a, b) ==
                 AllowedIn(times, max, length, a, b) + (if Hit(w, t, max, length).1 && a <= t <= b then 1 else 0)
  {
    assert (times + [t])[..|times|] == times;
  }

  predicate EndsBy(times: seq<int>, t: int) { times != [] && times[|times| - 1] <= t }

  /** One request at 0 and n at the last moment of its window. */
  lemma {:induction false} LateInFirstWindow(max: nat, length: int, n: nat) returns (times: seq<int>)
    requires length > 0 && n < max
    ensures NonDecreasing(times) && EndsBy(times, length)
    ensures WindowAfter(times, max, length) == Open(1 + n, length)
    ensures AllowedIn(times, max, length, length, 2 * length) == n
  {
    if n == 0 {
      Append([], 0, max, length, length, 2 * length);
      times := [0];
      assert [] + [0] == times;
    } else {
      var before := LateInFirstWindow(max, length, n - 1);
      Append(before, length, max, length, length, 2 * length);
      times := before + [length];
    }
  }

  /** And then n just after it. */
  lemma {:induction false} EarlyInSecondWindow(max: nat, length: int, n: nat) returns (times: seq<int>)
    requires length > 0 && 0 < n <= max
    ensures NonDecreasing(times) && EndsBy(times, length + 1)
    ensures WindowAfter(times, max, length) == Open(n, 2 * length + 1)
    ensures AllowedIn(times, max, length, length, 2 * length) == max - 1 + n
  {
    var before;
    if n == 1 {
      before := LateInFirstWindow(max, length, max - 1);
    } else {
      before := EarlyInSecondWindow(max, length, n - 1);
    }
    Append(before, length + 1, max, length, length, 2 * length);
    times := before + [length + 1];
  }

  /** The rate bound is tight for every max and window length. */
  lemma RateBoundIsTight(max: nat, length: int)
    requires max > 0 && length > 0
    ensures exists times :: NonDecreasing(times) && AllowedIn(times, max, length, length, 2 * length) == 2 * max - 1
  {
    var times := EarlyInSecondWindow(max, length, max);
  }
}

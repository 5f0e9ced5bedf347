/** The per-key fixed-window limiter and its amortised sweep. Times are in nanoseconds; every call
    carries the clock reading it made before it took the mutex. */
module IPLimiter {
  import opened FixedWindow

  const SWEEP_THRESHOLD: nat := 1024
  const MINUTE := 60_000_000_000

  datatype WindowState = WindowState(count: nat, resetAt: int)

  type Seen = map<string, WindowState>

  datatype Limits = Limits(max: nat, window: int)

  predicate Expired(w: WindowState, now: int) { now > w.resetAt }

  function Swept(seen: Seen, now: int): Seen {
    map k | k in seen && !Expired(seen[k], now) :: seen[k]
  }

  /** Allow without any deletion. */
  function Take(l: Limits, seen: Seen, key: string, now: int): (Seen, bool) {
    if l.max == 0 || key == "" then (seen, true)
    else if key !in seen || Expired(seen[key], now) then (seen[key := WindowState(1, now + l.window)], true)
    else if seen[key].count >= l.max then (seen, false)
    else (seen[key := WindowState(seen[key].count + 1, seen[key].resetAt)], true)
  }

  predicate Sweeps(l: Limits, seen: Seen, key: string) {
    l.max > 0 && key != "" && key !in seen && |seen| >= SWEEP_THRESHOLD
  }

  function SweepTake(l: Limits, seen: Seen, key: string, now: int): (Seen, bool) {
    Take(l, if Sweeps(l, seen, key) then Swept(seen, now) else seen, key, now)
  }

  class IPLimiter {
    const limits: Limits
    var seen: Seen

    /** A non-positive max disables limiting; a non-positive window means a minute. */
    constructor (max: int, window: int)
      ensures seen == map[]
      ensures max <= 0 ==> limits.max == 0
      ensures max > 0 ==> limits == Limits(max, if window <= 0 then 60_000_000_000 else window)
    {
      limits := if max <= 0 then Limits(0, 0) else Limits(max, if window <= 0 then MINUTE else window);
      seen := map[];
    }

    method Allow(key: string, now: int) returns (ok: bool)
      modifies this
      ensures (seen, ok) == SweepTake(limits, old(seen), key, now)
      ensures limits.max == 0 || key == "" ==> ok && seen == old(seen)
    {
      if limits.max == 0 || key == "" {
        return true;
      }
      var known := key in seen;
      if !known && |seen| >= SWEEP_THRESHOLD {
        Sweep(now);
      }
      if !known || Expired(seen[key], now) {
        seen := seen[key := WindowState(1, now + limits.window)];
        return true;
      }
      if seen[key].count >= limits.max {
        return false;
      }
      seen := seen[key := WindowState(seen[key].count + 1, seen[key].resetAt)];
      return true;
    }

    /** The deletion loop, in whatever order the map is iterated. */
    method Sweep(now: int)
      modifies this
      ensures seen == Swept(old(seen), now)
    {
      var todo := seen.Keys;
      while todo != {}
        invariant todo <= old(seen).Keys
        invariant forall k :: k in seen <==> k in old(seen) && (k in todo || !Expired(old(seen)[k], now))
        invariant forall k :: k in seen ==> seen[k] == old(seen)[k]
        decreases |todo|
      {
        var k :| k in todo;
        todo := todo - {k};
        if Expired(seen[k], now) {
          seen := seen - {k};
        }
      }
    }
  }

  // ---------------------------------------------------------------- runs

  datatype Call = Call(key: string, now: int)

  /** The limiter's map after a sequence of calls, with and without sweeping. */
  function Sweeping(l: Limits, calls: seq<Call>): Seen {
    if calls == [] then map[]
    else
      var c := calls[|calls| - 1];
      SweepTake(l, Sweeping(l, calls[..|calls| - 1]), c.key, c.now).0
  }

  function Keeping(l: Limits, calls: seq<Call>): Seen {
    if calls == [] then map[]
    else
      var c := calls[|calls| - 1];
      Take(l, Keeping(l, calls[..|calls| - 1]), c.key, c.now).0
  }

  predicate SweepingAnswer(l: Limits, calls: seq<Call>)
    requires calls != []
  {
    var c := calls[|calls| - 1];
    SweepTake(l, Sweeping(l, calls[..|calls| - 1]), c.key, c.now).1
  }

  predicate KeepingAnswer(l: Limits, calls: seq<Call>)
    requires calls != []
  {
    var c := calls[|calls| - 1];
    Take(l, Keeping(l, calls[..|calls| - 1]), c.key, c.now).1
  }

  /** Clock readings never step back from one lock holder to the next. */
  ghost predicate Ordered(calls: seq<Call>) {
    forall i, j :: 0 <= i <= j < |calls| ==> calls[i].now <= calls[j].now
  }

  // ---------------------------------------------------------------- the sweep changes no answer

  /** The sweeping map is the keeping one without some windows already expired at `now`. */
  ghost predicate Agree(swept: Seen, kept: Seen, now: int) {
    && (forall k :: k in swept ==> k in kept && kept[k] == swept[k])
    && (forall k :: k in kept && k !in swept ==> Expired(kept[k], now))
  }

  lemma AgreeStep(l: Limits, swept: Seen, kept: Seen, key: string, now: int)
    requires Agree(swept, kept, now)
    ensures Agree(SweepTake(l, swept, key, now).0, Take(l, kept, key, now).0, now)
    ensures SweepTake(l, swept, key, now).1 == Take(l, kept, key, now).1
  {
  }

  lemma {:induction false} AgreeRun(l: Limits, calls: seq<Call>, now: int)
    requires Ordered(calls) && (calls != [] ==> calls[|calls| - 1].now <= now)
    ensures Agree(Sweeping(l, calls), Keeping(l, calls), now)
  {
    if calls != [] {
      var before, c := calls[..|calls| - 1], calls[|calls| - 1];
      AgreeRun(l, before, c.now);
      AgreeStep(l, Sweeping(l, before), Keeping(l, before), c.key, c.now);
    }
  }

  /** The sweeping limiter answers every call exactly as one that never deletes. */
  lemma SweepChangesNoAnswer(l: Limits, calls: seq<Call>)
    requires Ordered(calls) && calls != []
    ensures SweepingAnswer(l, calls) == KeepingAnswer(l, calls)
  {
    var before, c := calls[..|calls| - 1], calls[|calls| - 1];
    AgreeRun(l, before, c.now);
    AgreeStep(l, Sweeping(l, before), Keeping(l, before), c.key, c.now);
  }

  /** A disabled limiter refuses nobody and remembers nobody, and an unknown caller is never refused. */
  lemma {:induction false} DisabledRefusesNobody(l: Limits, calls: seq<Call>)
    ensures calls != [] && (l.max == 0 || calls[|calls| - 1].key == "") ==> SweepingAnswer(l, calls)
    ensures l.max == 0 ==> Sweeping(l, calls) == map[]
    ensures "" !in Sweeping(l, calls)
  {
    if calls != [] {
      DisabledRefusesNobody(l, calls[..|calls| - 1]);
    }
  }

  // ---------------------------------------------------------------- the map stays small

  function Live(seen: Seen, now: int): set<string> {
    set k | k in seen && !Expired(seen[k], now)
  }

  /** Windows unexpired, among all ever opened, when the latest new key was inserted. */
  function LiveAtLastInsert(l: Limits, calls: seq<Call>): nat {
    if calls == [] then 0
    else
      var before, c := calls[..|calls| - 1], calls[|calls| - 1];
      if l.max > 0 && c.key != "" && c.key !in Sweeping(l, before) then |Live(Keeping(l, before), c.now)|
      else LiveAtLastInsert(l, before)
  }

  /** What a call does to the map's keys: nothing, or the sweep when it is due and then the insertion. */
  lemma KeysAfterCall(l: Limits, seen: Seen, c: Call)
    ensures SweepTake(l, seen, c.key, c.now).0.Keys ==
              if l.max <= 0 || c.key == "" || c.key in seen then seen.Keys
              else (if |seen| >= SWEEP_THRESHOLD then Swept(seen, c.now).Keys else seen.Keys) + {c.key}
  {
  }

  lemma SweptKeepsTheLive(swept: Seen, kept: Seen, now: int)
    requires Agree(swept, kept, now)
    ensures Swept(swept, now).Keys == Live(kept, now)
  {
  }

  lemma OneMoreKey(keys: set<string>, key: string)
    ensures |keys + {key}| <= |keys| + 1
  {
  }

  lemma {:induction false} MapStaysSmall(l: Limits, calls: seq<Call>)
    requires Ordered(calls)
    ensures |Sweeping(l, calls)| <= 1024 || |Sweeping(l, calls)| <= 1 + LiveAtLastInsert(l, calls)
  {
    if calls != [] {
      var before, c := calls[..|calls| - 1], calls[|calls| - 1];
      MapStaysSmall(l, before);
      AgreeRun(l, before, c.now);
      CallStaysSmall(l, Sweeping(l, before), Keeping(l, before), c);
    }
  }

  lemma CallStaysSmall(l: Limits, seen: Seen, kept: Seen, c: Call)
    requires Agree(seen, kept, c.now)
    ensures var size := |SweepTake(l, seen, c.key, c.now).0|;
            if l.max > 0 && c.key != "" && c.key !in seen
            then size <= SWEEP_THRESHOLD || size <= 1 + |Live(kept, c.now)|
            else size == |seen|
  {
    var seen' := SweepTake(l, seen, c.key, c.now).0;
    KeysAfterCall(l, seen, c);
    assert |seen'| == |seen'.Keys| && |seen| == |seen.Keys|;
    if |seen| >= SWEEP_THRESHOLD {
      SweptKeepsTheLive(seen, kept, c.now);
      OneMoreKey(Swept(seen, c.now).Keys, c.key);
    } else {
      OneMoreKey(seen.Keys, c.key);
    }
  }

  // ---------------------------------------------------------------- the rate a key gets

  function TimesOf(calls: seq<Call>, key: string): seq<int> {
    if calls == [] then []
    else
      var c := calls[|calls| - 1];
      TimesOf(calls[..|calls| - 1], key) + (if c.key == key then [c.now] else [])
  }

  function WindowOf(seen: Seen, key: string): Window {
    if key in seen then Open(seen[key].count, seen[key].resetAt) else Closed
  }

  /** Calls with this key the limiter allowed at times between a and b. */
  function AllowedFor(l: Limits, calls: seq<Call>, key: string, a: int, b: int): nat {
    if calls == [] then 0
    else
      var c := calls[|calls| - 1];
      AllowedFor(l, calls[..|calls| - 1], key, a, b) +
      (if c.key == key && SweepingAnswer(l, calls) && a <= c.now <= b then 1 else 0)
  }

  lemma TakeIsAHit(l: Limits, seen: Seen, key: string, c: Call)
    requires key != "" && l.max > 0
    ensures WindowOf(Take(l, seen, c.key, c.now).0, key) ==
              (if c.key == key then Hit(WindowOf(seen, key), c.now, l.max, l.window).0 else WindowOf(seen, key))
    ensures c.key == key ==> Take(l, seen, c.key, c.now).1 == Hit(WindowOf(seen, key), c.now, l.max, l.window).1
  {
  }

  lemma TimesOfLast(calls: seq<Call>, key: string)
    requires calls != []
    ensures var before, c := calls[..|calls| - 1], calls[|calls| - 1];
            TimesOf(calls, key) == if c.key == key then TimesOf(before, key) + [c.now] else TimesOf(before, key)
  {
  }

  lemma {:induction false} KeyIsAFixedWindow(l: Limits, calls: seq<Call>, key: string)
    requires key != "" && l.max > 0
    ensures WindowOf(Keeping(l, calls), key) == WindowAfter(TimesOf(calls, key), l.max, l.window)
  {
    if calls != [] {
      var before, c := calls[..|calls| - 1], calls[|calls| - 1];
      KeyIsAFixedWindow(l, before, key);
      TakeIsAHit(l, Keeping(l, before), key, c);
      TimesOfLast(calls, key);
      if c.key == key {
        Append(TimesOf(before, key), c.now, l.max, l.window, 0, 0);
      }
    }
  }

  lemma {:induction false} KeyIsCountedAlike(l: Limits, calls: seq<Call>, key: string, a: int, b: int)
    requires Ordered(calls) && key != "" && l.max > 0
    ensures AllowedFor(l, calls, key, a, b) == AllowedIn(TimesOf(calls, key), l.max, l.window, a, b)
  {
    if calls != [] {
      var before, c := calls[..|calls| - 1], calls[|calls| - 1];
      KeyIsCountedAlike(l, before, key, a, b);
      TimesOfLast(calls, key);
      if c.key == key {
        SweepChangesNoAnswer(l, calls);
        KeyIsAFixedWindow(l, before, key);
        TakeIsAHit(l, Keeping(l, before), key, c);
        Append(TimesOf(before, key), c.now, l.max, l.window, a, b);
      }
    }
  }

  lemma {:induction false} TimesOrdered(calls: seq<Call>, key: string)
    requires Ordered(calls)
    ensures NonDecreasing(TimesOf(calls, key))
    ensures forall i :: 0 <= i < |TimesOf(calls, key)| ==> calls != [] && TimesOf(calls, key)[i] <= calls[|calls| - 1].now
  {
    if calls != [] {
      TimesOrdered(calls[..|calls| - 1], key);
    }
  }

  /** Within any closed interval as long as the window a non-empty key is allowed at most 2 * max - 1 times. */
  lemma KeyRate(l: Limits, calls: seq<Call>, key: string, a: int)
    requires Ordered(calls) && key != "" && l.max > 0 && l.window > 0
    ensures AllowedFor(l, calls, key, a, a + l.window) <= 2 * l.max - 1
  {
    KeyIsCountedAlike(l, calls, key, a, a + l.window);
    TimesOrdered(calls, key);
    RateBound(TimesOf(calls, key), l.max, l.window, a);
  }

  lemma {:induction false} TimesOfPrefix(front: seq<Call>, calls: seq<Call>, key: string)
    requires front <= calls
    ensures TimesOf(front, key) <= TimesOf(calls, key)
    decreases |calls|
  {
    if front != calls {
      TimesOfPrefix(front, calls[..|calls| - 1], key);
      TimesOfLast(calls, key);
    }
  }

  /** Of any window a key had after a front part of the calls, the whole run lets at most max through; of the
      one open at the end, exactly its count. */
  lemma KeyWindow(l: Limits, front: seq<Call>, calls: seq<Call>, key: string, w: Window)
    requires Ordered(calls) && key != "" && l.max > 0 && l.window > 0 && front <= calls
    requires w == WindowOf(Keeping(l, front), key) && w.Open?
    ensures AllowedFor(l, calls, key, w.resetAt - l.window, w.resetAt) <= l.max
    ensures front == calls ==> AllowedFor(l, calls, key, w.resetAt - l.window, w.resetAt) == w.count
  {
    KeyIsAFixedWindow(l, front, key);
    KeyIsCountedAlike(l, calls, key, w.resetAt - l.window, w.resetAt);
    TimesOrdered(calls, key);
    TimesOfPrefix(front, calls, key);
    TimesWindow(l, TimesOf(calls, key), TimesOf(front, key), w);
  }

  lemma TimesWindow(l: Limits, times: seq<int>, early: seq<int>, w: Window)
    requires NonDecreasing(times) && early <= times && l.max > 0 && l.window > 0
    requires w == WindowAfter(early, l.max, l.window) && w.Open?
    ensures AllowedIn(times, l.max, l.window, w.resetAt - l.window, w.resetAt) <= l.max
    ensures early == times ==> AllowedIn(times, l.max, l.window, w.resetAt - l.window, w.resetAt) == w.count
  {
    assert times[..|early|] == early;
    EveryWindowBound(times, |early|, l.max, l.window);
    WindowBound(times, l.max, l.window);
  }

  // ---------------------------------------------------------------- keys do not interfere

  /** A call under one key never changes another key's window as any later call will see it. */
  lemma KeysAreIndependent(l: Limits, seen: Seen, key: string, other: string, now: int)
    requires key != other
    ensures var seen' := SweepTake(l, seen, key, now).0;
            if other in seen' then other in seen && seen'[other] == seen[other]
            else other !in seen || Expired(seen[other], now)
  {
  }
}

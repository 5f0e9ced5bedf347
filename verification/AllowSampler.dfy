/** The decision-log sampler: it forwards denials and errors always, allows up to a cap per second, and
    reports what it dropped. */
module AllowSampler {
  import opened Base
  import opened FixedWindow

  const SECOND := 1_000_000_000

  /** failed: the evaluation returned an error. */
  datatype Decision = Decision(allowed: bool, failed: bool, action: string) {
    predicate Sampled() { allowed && !failed }
  }

  datatype Settings = Settings(limit: int, reporting: bool)  // reporting: a logger for the "dropped" line is wired

  datatype Sampler = Sampler(
    windowEnd: Option<int>,
    count: nat,
    dropped: nat,
    forwarded: seq<Decision>,
    reports: seq<nat>)

  const NEW := Sampler(None, 0, 0, [], [])

  function Rolled(c: Settings, s: Sampler, now: int): Sampler {
    if s.windowEnd.None? || now > s.windowEnd.value
    then Sampler(Some(now + SECOND), 0, 0, s.forwarded,
                 if s.dropped > 0 && c.reporting then s.reports + [s.dropped] else s.reports)
    else s
  }

  function Logged(c: Settings, s: Sampler, d: Decision, now: int): Sampler {
    if c.limit <= 0 || !d.Sampled() then s.(forwarded := s.forwarded + [d])
    else
      var r := Rolled(c, s, now);
      if r.count < c.limit then r.(count := r.count + 1, forwarded := r.forwarded + [d])
      else r.(dropped := r.dropped + 1)
  }

  class AllowSampler {
    const settings: Settings
    var windowEnd: Option<int>
    var count: nat
    var dropped: nat
    var forwarded: seq<Decision>  // what reached the inner logger
    var reports: seq<nat>         // the "dropped N allow records" lines

    function Snapshot(): Sampler
      reads this
    {
      Sampler(windowEnd, count, dropped, forwarded, reports)
    }

    constructor (limitPerSecond: int, reporting: bool)
      ensures Snapshot() == NEW && settings == Settings(limitPerSecond, reporting)
    {
      settings := Settings(limitPerSecond, reporting);
      windowEnd, count, dropped, forwarded, reports := None, 0, 0, [], [];
    }

    method Log(d: Decision, now: int)
      modifies this
      ensures Snapshot() == Logged(settings, old(Snapshot()), d, now)
    {
      if settings.limit <= 0 || d.failed || !d.allowed {
        forwarded := forwarded + [d];
        return;
      }
      var droppedToReport: nat := 0;
      var forward := false;
      if windowEnd.None? || now > windowEnd.value {
        droppedToReport := dropped;
        dropped := 0;
        count := 0;
        windowEnd := Some(now + SECOND);
      }
      if count < settings.limit {
        count := count + 1;
        forward := true;
      } else {
        dropped := dropped + 1;
      }
      if droppedToReport > 0 && settings.reporting {
        reports := reports + [droppedToReport];
      }
      if forward {
        forwarded := forwarded + [d];
      }
    }
  }

  // ---------------------------------------------------------------- runs

  datatype Call = Call(d: Decision, now: int)

  function After(c: Settings, calls: seq<Call>): Sampler {
    if calls == [] then NEW
    else Logged(c, After(c, calls[..|calls| - 1]), calls[|calls| - 1].d, calls[|calls| - 1].now)
  }

  function Sum(s: seq<nat>): nat {
    if s == [] then 0 else Sum(s[..|s| - 1]) + s[|s| - 1]
  }

  function Allows(ds: seq<Decision>): nat {
    if ds == [] then 0 else Allows(ds[..|ds| - 1]) + (if ds[|ds| - 1].Sampled() then 1 else 0)
  }

  function Kept(ds: seq<Decision>): seq<Decision> {
    if ds == [] then [] else Kept(ds[..|ds| - 1]) + (if ds[|ds| - 1].Sampled() then [] else [ds[|ds| - 1]])
  }

  function Asked(calls: seq<Call>): seq<Decision> {
    seq(|calls|, i requires 0 <= i < |calls| => calls[i].d)
  }

  lemma AskedLast(calls: seq<Call>)
    requires calls != []
    ensures Asked(calls) == Asked(calls[..|calls| - 1]) + [calls[|calls| - 1].d]
  {
  }

  lemma Grow(ds: seq<Decision>, d: Decision)
    ensures Allows(ds + [d]) == Allows(ds) + (if d.Sampled() then 1 else 0)
    ensures Kept(ds + [d]) == Kept(ds) + (if d.Sampled() then [] else [d])
  {
    assert (ds + [d])[..|ds|] == ds;
  }

  /** Every allow asked for was forwarded, counted in a report, or is still in the dropped counter; every
      denial and error was forwarded, in order. */
  ghost predicate Conserved(c: Settings, asked: seq<Decision>, s: Sampler) {
    && Kept(s.forwarded) == Kept(asked)
    && (c.reporting ==> Allows(asked) == Allows(s.forwarded) + Sum(s.reports) + s.dropped)
    && (!c.reporting ==> s.reports == [])
  }

  lemma GrowReports(reports: seq<nat>, n: nat)
    ensures Sum(reports + [n]) == Sum(reports) + n
  {
    assert (reports + [n])[..|reports|] == reports;
  }

  /** Opening a new window moves the dropped count into a report. */
  lemma ConservedRoll(c: Settings, asked: seq<Decision>, s: Sampler, now: int)
    requires Conserved(c, asked, s)
    ensures Conserved(c, asked, Rolled(c, s, now))
  {
    GrowReports(s.reports, s.dropped);
  }

  lemma ConservedForward(c: Settings, asked: seq<Decision>, s: Sampler, d: Decision, count: nat)
    requires Conserved(c, asked, s)
    ensures Conserved(c, asked + [d], s.(forwarded := s.forwarded + [d], count := count))
  {
    Grow(asked, d);
    Grow(s.forwarded, d);
  }

  lemma ConservedDrop(c: Settings, asked: seq<Decision>, s: Sampler, d: Decision)
    requires Conserved(c, asked, s) && d.Sampled()
    ensures Conserved(c, asked + [d], s.(dropped := s.dropped + 1))
  {
    Grow(asked, d);
  }

  lemma ConservedStep(c: Settings, asked: seq<Decision>, s: Sampler, d: Decision, now: int)
    requires Conserved(c, asked, s)
    ensures Conserved(c, asked + [d], Logged(c, s, d, now))
  {
    var r := Rolled(c, s, now);
    if c.limit <= 0 || !d.Sampled() {
      ConservedForward(c, asked, s, d, s.count);
    } else if r.count < c.limit {
      ConservedRoll(c, asked, s, now);
      ConservedForward(c, asked, r, d, r.count + 1);
    } else {
      ConservedRoll(c, asked, s, now);
      ConservedDrop(c, asked, r, d);
    }
  }

  /** Nothing vanishes unreported. */
  lemma {:induction false} Conservation(c: Settings, calls: seq<Call>)
    ensures Conserved(c, Asked(calls), After(c, calls))
  {
    if calls != [] {
      var before, last := calls[..|calls| - 1], calls[|calls| - 1];
      Conservation(c, before);
      AskedLast(calls);
      ConservedStep(c, Asked(before), After(c, before), last.d, last.now);
    }
  }

  /** Without a logger, exactly the records a wired logger would have reported vanish. */
  lemma SilentLoss(c: Settings, calls: seq<Call>)
    requires !c.reporting
    ensures var s := After(c, calls);
            Allows(Asked(calls)) - Allows(s.forwarded) - s.dropped == Sum(After(c.(reporting := true), calls).reports)
  {
    SameBut(c, calls);
    Conservation(c.(reporting := true), calls);
  }

  lemma {:induction false} SameBut(c: Settings, calls: seq<Call>)
    ensures After(c, calls).(reports := []) == After(c.(reporting := true), calls).(reports := [])
  {
    if calls != [] {
      SameBut(c, calls[..|calls| - 1]);
    }
  }

  // ---------------------------------------------------------------- volume

  function TimesOf(calls: seq<Call>): seq<int> {
    if calls == [] then []
    else TimesOf(calls[..|calls| - 1]) + (if calls[|calls| - 1].d.Sampled() then [calls[|calls| - 1].now] else [])
  }

  lemma TimesOfLast(calls: seq<Call>)
    requires calls != []
    ensures var before, last := calls[..|calls| - 1], calls[|calls| - 1];
            TimesOf(calls) == if last.d.Sampled() then TimesOf(before) + [last.now] else TimesOf(before)
  {
  }

  ghost predicate Ordered(calls: seq<Call>) {
    forall i, j :: 0 <= i <= j < |calls| ==> calls[i].now <= calls[j].now
  }

  /** Allows forwarded at times between a and b. */
  function ForwardedIn(c: Settings, calls: seq<Call>, a: int, b: int): nat {
    if calls == [] then 0
    else
      var last := calls[|calls| - 1];
      ForwardedIn(c, calls[..|calls| - 1], a, b) +
      (if last.d.Sampled() && |After(c, calls).forwarded| > |After(c, calls[..|calls| - 1]).forwarded| && a <= last.now <= b
       then 1 else 0)
  }

  function WindowOf(s: Sampler): Window {
    if s.windowEnd.None? then Closed else Open(s.count, s.windowEnd.value)
  }

  lemma LogIsAHit(c: Settings, s: Sampler, d: Decision, now: int)
    requires c.limit > 0 && d.Sampled()
    ensures var h := Hit(WindowOf(s), now, c.limit, SECOND);
            WindowOf(Logged(c, s, d, now)) == h.0 && (|Logged(c, s, d, now).forwarded| > |s.forwarded| <==> h.1)
  {
  }

  lemma {:induction false} SamplerIsAFixedWindow(c: Settings, calls: seq<Call>, a: int, b: int)
    requires c.limit > 0
    ensures WindowOf(After(c, calls)) == WindowAfter(TimesOf(calls), c.limit, SECOND)
    ensures ForwardedIn(c, calls, a, b) == AllowedIn(TimesOf(calls), c.limit, SECOND, a, b)
  {
    if calls != [] {
      var before, last := calls[..|calls| - 1], calls[|calls| - 1];
      SamplerIsAFixedWindow(c, before, a, b);
      TimesOfLast(calls);
      if last.d.Sampled() {
        LogIsAHit(c, After(c, before), last.d, last.now);
        Append(TimesOf(before), last.now, c.limit, SECOND, a, b);
      }
    }
  }

  /** What should reach the log: every denial and error, and each allow the fixed window lets through, in order;
      without a limit, everything. */
  function Chosen(c: Settings, calls: seq<Call>): seq<Decision> {
    if calls == [] then []
    else
      var before, last := calls[..|calls| - 1], calls[|calls| - 1];
      var through := !last.d.Sampled() || c.limit <= 0
                     || Hit(WindowAfter(TimesOf(before), c.limit, SECOND), last.now, c.limit, SECOND).1;
      Chosen(c, before) + (if through then [last.d] else [])
  }

  /** Exactly these records reach the log; with no limit nothing is held back or reported. */
  lemma {:induction false} ForwardsTheChosen(c: Settings, calls: seq<Call>)
    ensures After(c, calls).forwarded == Chosen(c, calls)
    ensures c.limit <= 0 ==> Chosen(c, calls) == Asked(calls) && After(c, calls).reports == [] && After(c, calls).dropped == 0
  {
    if calls != [] {
      var before, last := calls[..|calls| - 1], calls[|calls| - 1];
      ForwardsTheChosen(c, before);
      AskedLast(calls);
      if c.limit > 0 {
        SamplerIsAFixedWindow(c, before, 0, 0);
        assert After(c, before).forwarded + [] == After(c, before).forwarded;
        if last.d.Sampled() {
          LogIsAHit(c, After(c, before), last.d, last.now);
        }
      }
    }
  }

  lemma {:induction false} TimesOrdered(calls: seq<Call>)
    requires Ordered(calls)
    ensures NonDecreasing(TimesOf(calls))
    ensures forall i :: 0 <= i < |TimesOf(calls)| ==> calls != [] && TimesOf(calls)[i] <= calls[|calls| - 1].now
  {
    if calls != [] {
      TimesOrdered(calls[..|calls| - 1]);
    }
  }

  /** In any second at most 2 * limit - 1 allow records reach the log. */
  lemma VolumeBound(c: Settings, calls: seq<Call>, a: int)
    requires Ordered(calls) && c.limit > 0
    ensures ForwardedIn(c, calls, a, a + 1_000_000_000) <= 2 * c.limit - 1
  {
    SamplerIsAFixedWindow(c, calls, a, a + SECOND);
    TimesOrdered(calls);
    RateBound(TimesOf(calls), c.limit, SECOND, a);
  }
}

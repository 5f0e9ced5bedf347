/** The life of one outbox row as the list of things that happened to it. The row's status and retry
    count are a replay of that list, so a law about a row is a law about its trail. */
module OutboxTrail {
  import opened Base
  import opened OutboxTable

  type WorkerId = nat

  datatype Target = Mcp | Webhook(endpoint: string)

  datatype RowEvent =
    | ClaimEvent(w: WorkerId, at: int)
    | Delivered(w: WorkerId, targets: seq<Target>)              // deliver returned nil to w
    | DoneMark(w: WorkerId, reported: bool)                     // reported: w saw the answer
    | FailMark(w: WorkerId, dead: bool, reported: bool)
    | ReclaimEvent

  type Trail = seq<RowEvent>

  function Fails(trail: Trail): nat {
    if trail == [] then 0 else Fails(trail[..|trail| - 1]) + (if trail[|trail| - 1].FailMark? then 1 else 0)
  }

  function Claims(trail: Trail): nat {
    if trail == [] then 0 else Claims(trail[..|trail| - 1]) + (if trail[|trail| - 1].ClaimEvent? then 1 else 0)
  }

  function Reclaims(trail: Trail): nat {
    if trail == [] then 0 else Reclaims(trail[..|trail| - 1]) + (if trail[|trail| - 1].ReclaimEvent? then 1 else 0)
  }

  function StatusOf(trail: Trail, max: nat): Status {
    if trail == [] then Pending
    else
      match trail[|trail| - 1]
      case ClaimEvent(_, _) => Processing
      case Delivered(_, _) => StatusOf(trail[..|trail| - 1], max)
      case DoneMark(_, _) => Done
      case FailMark(_, _, _) => if Fails(trail) >= max then Failed else Pending
      case ReclaimEvent => Pending
  }

  /** The latest thing worker w did with this row. */
  function LastOf(trail: Trail, w: WorkerId): Option<RowEvent> {
    if trail == [] then None
    else
      var e := trail[|trail| - 1];
      if !e.ReclaimEvent? && e.w == w then Some(e) else LastOf(trail[..|trail| - 1], w)
  }

  predicate LegalNext(trail: Trail, e: RowEvent, max: nat) {
    match e
    case ClaimEvent(_, _) => StatusOf(trail, max) == Pending
    case ReclaimEvent => StatusOf(trail, max) == Processing
    case Delivered(w, _) => LastOf(trail, w).Some? && LastOf(trail, w).value.ClaimEvent?
    case DoneMark(w, _) => LastOf(trail, w).Some? && LastOf(trail, w).value.Delivered?
    case FailMark(w, dead, _) =>
      LastOf(trail, w).Some? && LastOf(trail, w).value.ClaimEvent? && dead == (Fails(trail) + 1 >= max)
  }

  predicate Legal(trail: Trail, max: nat) {
    trail == [] ||
    (Legal(trail[..|trail| - 1], max) && LegalNext(trail[..|trail| - 1], trail[|trail| - 1], max))
  }

  lemma Extend(trail: Trail, e: RowEvent, max: nat)
    ensures (trail + [e])[..|trail|] == trail
    ensures Legal(trail + [e], max) <==> Legal(trail, max) && LegalNext(trail, e, max)
    ensures Fails(trail + [e]) == Fails(trail) + (if e.FailMark? then 1 else 0)
    ensures forall w :: LastOf(trail + [e], w) == if !e.ReclaimEvent? && e.w == w then Some(e) else LastOf(trail, w)
  {
    assert (trail + [e])[..|trail|] == trail;
  }

  lemma {:induction false} LegalPrefix(trail: Trail, n: nat, max: nat)
    requires Legal(trail, max) && n <= |trail|
    ensures Legal(trail[..n], max)
  {
    if n < |trail| {
      LegalPrefix(trail[..|trail| - 1], n, max);
      assert trail[..|trail| - 1][..n] == trail[..n];
    } else {
      assert trail[..n] == trail;
    }
  }

  // ---------------------------------------------------------------- retry bound

  /** Pending and processing rows have retries left. */
  lemma {:induction false} InFlightHasRetries(trail: Trail, max: nat)
    requires Legal(trail, max) && max > 0
    ensures !StatusOf(trail, max).Terminal() ==> Fails(trail) < max
  {
    if trail != [] {
      InFlightHasRetries(trail[..|trail| - 1], max);
    }
  }

  function Min(a: nat, b: nat): nat { if a < b then a else b }

  lemma {:induction false} ClaimsBoundedExactly(trail: Trail, max: nat)
    requires Legal(trail, max) && max > 0
    ensures Claims(trail) <= Min(Fails(trail) + (if StatusOf(trail, max) in {Pending, Failed} then 0 else 1), max)
                             + Reclaims(trail)
  {
    if trail != [] {
      ClaimsBoundedExactly(trail[..|trail| - 1], max);
      InFlightHasRetries(trail[..|trail| - 1], max);
    }
  }

  /** A row is claimed at most maxRetries times plus the number of times it was reclaimed. */
  lemma ClaimsBounded(trail: Trail, max: nat)
    requires Legal(trail, max) && max > 0
    ensures Claims(trail) <= max + Reclaims(trail)
  {
    ClaimsBoundedExactly(trail, max);
  }

  lemma {:induction false} FailsMonotone(trail: Trail, n: nat)
    requires n <= |trail|
    ensures Fails(trail[..n]) <= Fails(trail)
  {
    if n == |trail| {
      assert trail[..n] == trail;
    } else {
      FailsMonotone(trail[..|trail| - 1], n);
      assert trail[..|trail| - 1][..n] == trail[..n];
    }
  }

  /** Once its count reaches maxRetries a row is never claimed again. */
  lemma NeverClaimedAfterExhaustion(trail: Trail, max: nat, n: nat, k: nat)
    requires Legal(trail, max) && max > 0
    requires n <= k < |trail| && Fails(trail[..n]) >= max
    ensures !trail[k].ClaimEvent?
  {
    LegalPrefix(trail, k, max);
    LegalPrefix(trail, k + 1, max);
    assert trail[..k + 1][..k] == trail[..k];
    InFlightHasRetries(trail[..k], max);
    FailsMonotone(trail[..k], n);
    assert trail[..k][..n] == trail[..n];
  }

  // ---------------------------------------------------------------- claims are separated

  predicate ReturnsToPending(e: RowEvent) {
    e.ReclaimEvent? || (e.FailMark? && !e.dead)
  }

  lemma {:induction false} PendingMeansReturned(trail: Trail, max: nat, i: nat)
    requires Legal(trail, max) && i < |trail| && trail[i].ClaimEvent?
    requires StatusOf(trail, max) == Pending
    ensures exists k :: i < k < |trail| && ReturnsToPending(trail[k])
  {
    var n := |trail| - 1;
    if trail[n].Delivered? {
      PendingMeansReturned(trail[..n], max, i);
      var k :| i < k < n && ReturnsToPending(trail[..n][k]);
      assert ReturnsToPending(trail[k]);
    } else {
      assert ReturnsToPending(trail[n]);
    }
  }

  /** Two claims of one row always have a retry or a reclaim of it between them. */
  lemma ClaimsSeparated(trail: Trail, max: nat, i: nat, j: nat)
    requires Legal(trail, max) && i < j < |trail| && trail[i].ClaimEvent? && trail[j].ClaimEvent?
    ensures exists k :: i < k < j && ReturnsToPending(trail[k])
  {
    LegalPrefix(trail, j + 1, max);
    assert trail[..j + 1][..j] == trail[..j];
    PendingMeansReturned(trail[..j], max, i);
    var k :| i < k < j && ReturnsToPending(trail[..j][k]);
    assert ReturnsToPending(trail[k]);
  }

  // ---------------------------------------------------------------- nothing is falsely done

  lemma {:induction false} LastOfIsThere(trail: Trail, w: WorkerId)
    requires LastOf(trail, w).Some?
    ensures exists i :: 0 <= i < |trail| && trail[i] == LastOf(trail, w).value && !trail[i].ReclaimEvent? && trail[i].w == w
  {
    var n := |trail| - 1;
    if trail[n].ReclaimEvent? || trail[n].w != w {
      LastOfIsThere(trail[..n], w);
      var i :| 0 <= i < n && trail[..n][i] == LastOf(trail, w).value;
      assert trail[i] == LastOf(trail, w).value;
    }
  }

  /** Every done mark follows a delivery that returned success to the same worker. */
  lemma DoneWasDelivered(trail: Trail, max: nat, j: nat)
    requires Legal(trail, max) && j < |trail| && trail[j].DoneMark?
    ensures exists i :: 0 <= i < j && trail[i].Delivered? && trail[i].w == trail[j].w
  {
    LegalPrefix(trail, j + 1, max);
    assert trail[..j + 1][..j] == trail[..j];
    LastOfIsThere(trail[..j], trail[j].w);
    var i :| 0 <= i < j && trail[..j][i] == LastOf(trail[..j], trail[j].w).value;
    assert trail[i].Delivered?;
  }

  lemma {:induction false} DoneHasMark(trail: Trail, max: nat)
    requires StatusOf(trail, max) == Done
    ensures exists j :: 0 <= j < |trail| && trail[j].DoneMark?
  {
    var n := |trail| - 1;
    if trail[n].Delivered? {
      DoneHasMark(trail[..n], max);
      var j :| 0 <= j < n && trail[..n][j].DoneMark?;
      assert trail[j].DoneMark?;
    } else {
      assert trail[n].DoneMark?;
    }
  }

  // ---------------------------------------------------------------- terminal marks

  predicate TerminalMark(e: RowEvent) {
    e.DoneMark? || (e.FailMark? && e.dead)
  }

  function TerminalMarks(trail: Trail): nat {
    if trail == [] then 0
    else TerminalMarks(trail[..|trail| - 1]) + (if TerminalMark(trail[|trail| - 1]) then 1 else 0)
  }

  /** How often a worker bumped its dead counter and notified for this row. */
  function DeadReports(trail: Trail): nat {
    if trail == [] then 0
    else
      var e := trail[|trail| - 1];
      DeadReports(trail[..|trail| - 1]) + (if e.FailMark? && e.dead && e.reported then 1 else 0)
  }

  lemma {:induction false} ReportsAreTerminal(trail: Trail)
    ensures DeadReports(trail) <= TerminalMarks(trail)
  {
    if trail != [] {
      ReportsAreTerminal(trail[..|trail| - 1]);
    }
  }

  /** Was every mark made while the row was still processing? */
  predicate Guarded(trail: Trail, max: nat) {
    trail == [] ||
    (var p, e := trail[..|trail| - 1], trail[|trail| - 1];
     Guarded(p, max) && (e.DoneMark? || e.FailMark? ==> StatusOf(p, max) == Processing))
  }

  /** Guarded marks make done and failed final: after the first terminal mark nothing moves the row,
      and there is never a second. */
  lemma {:induction false} GuardedIsFinal(trail: Trail, max: nat, n: nat)
    requires Legal(trail, max) && Guarded(trail, max) && n <= |trail|
    ensures TerminalMarks(trail) <= 1
    ensures TerminalMarks(trail) == 1 <==> StatusOf(trail, max).Terminal()
    ensures StatusOf(trail[..n], max).Terminal() ==> StatusOf(trail, max) == StatusOf(trail[..n], max)
  {
    if n == |trail| {
      assert trail[..n] == trail;
      if trail != [] {
        GuardedIsFinal(trail[..n - 1], max, n - 1);
      }
    } else {
      var p := trail[..|trail| - 1];
      GuardedIsFinal(p, max, n);
      assert p[..n] == trail[..n];
    }
  }

  /** Exactly which marks undo a terminal status: a failure mark on a done row and a done mark on a
      failed row, the two the statements' missing status guard would refuse. */
  lemma MarkUndoesTerminalIff(trail: Trail, e: RowEvent, max: nat)
    requires Legal(trail + [e], max) && StatusOf(trail, max).Terminal()
    ensures StatusOf(trail + [e], max) != StatusOf(trail, max) <==>
              || (e.FailMark? && StatusOf(trail, max) == Done)
              || (e.DoneMark? && StatusOf(trail, max) == Failed)
  {
    Extend(trail, e, max);
    if e.FailMark? && StatusOf(trail, max) == Failed {
      FailedIsExhausted(trail, max);
    }
  }

  lemma {:induction false} FailedIsExhausted(trail: Trail, max: nat)
    requires StatusOf(trail, max) == Failed
    ensures Fails(trail) >= max
  {
    if trail[|trail| - 1].Delivered? {
      FailedIsExhausted(trail[..|trail| - 1], max);
    }
  }

  // ---------------------------------------------------------------- exactly when the guarantees fail

  predicate Undoes(e: RowEvent, status: Status) {
    (e.FailMark? && status == Done) || (e.DoneMark? && status == Failed)
  }

  /** A final status stays from there on exactly when no later mark contradicts it. */
  lemma {:induction false} FinalIff(trail: Trail, max: nat, n: nat)
    requires Legal(trail, max) && n <= |trail| && StatusOf(trail[..n], max).Terminal()
    ensures (forall m :: n <= m <= |trail| ==> StatusOf(trail[..m], max) == StatusOf(trail[..n], max)) <==>
            (forall k :: n <= k < |trail| ==> !Undoes(trail[k], StatusOf(trail[..n], max)))
  {
    var last := |trail| - 1;
    if n <= last {
      var p := trail[..last];
      assert forall m :: n <= m <= last ==> p[..m] == trail[..m];
      assert forall k :: n <= k < last ==> p[k] == trail[k];
      FinalIff(p, max, n);
      assert p[..last] == p && trail[..last + 1] == trail == p + [trail[last]];
      if StatusOf(p, max) == StatusOf(trail[..n], max) {
        TerminalMovesIff(p, trail[last], max);
      }
    }
  }

  lemma TerminalMovesIff(trail: Trail, e: RowEvent, max: nat)
    requires Legal(trail + [e], max) && StatusOf(trail, max).Terminal()
    ensures StatusOf(trail + [e], max) != StatusOf(trail, max) <==> Undoes(e, StatusOf(trail, max))
  {
    Extend(trail, e, max);
    MarkUndoesTerminalIff(trail, e, max);
  }

  /** How often this row was marked dead. */
  function DeadMarks(trail: Trail): nat {
    if trail == [] then 0
    else
      var e := trail[|trail| - 1];
      DeadMarks(trail[..|trail| - 1]) + (if e.FailMark? && e.dead then 1 else 0)
  }

  /** How often without the worker hearing of it. */
  function UnheardDeadMarks(trail: Trail): nat {
    if trail == [] then 0
    else
      var e := trail[|trail| - 1];
      UnheardDeadMarks(trail[..|trail| - 1]) + (if e.FailMark? && e.dead && !e.reported then 1 else 0)
  }

  /** The retry count tells exactly how often a row was marked dead: once for the failure that reaches the
      limit, and again for each one after. */
  lemma {:induction false} DeadMarksExactly(trail: Trail, max: nat)
    requires Legal(trail, max) && max > 0
    ensures DeadMarks(trail) == if Fails(trail) >= max then Fails(trail) - max + 1 else 0
  {
    if trail != [] {
      DeadMarksExactly(trail[..|trail| - 1], max);
    }
  }

  lemma {:induction false} DeadReportsExactly(trail: Trail)
    ensures DeadReports(trail) + UnheardDeadMarks(trail) == DeadMarks(trail)
  {
    if trail != [] {
      DeadReportsExactly(trail[..|trail| - 1]);
    }
  }
}

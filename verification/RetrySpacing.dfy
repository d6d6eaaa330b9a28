/**
 How long a failing message is kept trying: each claim waits out the delay of
 the failure before it, and the delays add up before the message is given up.
 */
module RetrySpacing {
  import opened Options
  import opened OutboxTable
  import opened WorkerProtocol
  import ClaimSafety

  predicate NoSweepAfter(log: seq<Event>, i: int) {
    forall m :: 0 <= m < |log| && i < m ==> !log[m].Sweeping?
  }

  /** The delays of attempts `a` to `c` together. */
  function Wait(a: int, c: int): Time
    decreases c - a
  {
    if c < a then 0 else Wait(a, c - 1) + Backoff(c)
  }

  /** No claim follows a failure sooner than its delay, unless the row's claim
      was swept in between. */
  ghost predicate Spaced(log: seq<Event>) {
    forall i, j :: 0 <= i < j < |log| && log[i].Failing? && log[j].Claiming? && NoSweepAfter(log[..j], i) ==>
      log[j].at >= log[i].at + Backoff(log[i].attempts)
  }

  /** Every failure since the last sweep is followed by its own delay and those
      of all attempts up to `c` by time `t`. */
  ghost predicate Due(log: seq<Event>, c: int, t: Time) {
    forall i :: 0 <= i < |log| && log[i].Failing? && NoSweepAfter(log, i) ==>
      log[i].attempts <= c + 1 && log[i].at + Wait(log[i].attempts, c) <= t
  }

  predicate NoFailure(log: seq<Event>) {
    forall i :: 0 <= i < |log| ==> !log[i].Failing?
  }

  predicate IsFirstFailure(log: seq<Event>, i: int) {
    0 <= i < |log| && log[i].Failing? && NoFailure(log[..i])
  }

  /** A row never swept first failed the delays of attempts 1 to `c`, or longer,
      before `t`; or has not failed at all. */
  ghost predicate Patient(log: seq<Event>, c: int, t: Time) {
    NoSweepAfter(log, -1) ==>
      if c <= 0 then NoFailure(log) else exists i :: IsFirstFailure(log, i) && log[i].at + Wait(1, c) <= t
  }

  predicate FailsWithin(log: seq<Event>, c: int) {
    forall i :: 0 <= i < |log| && log[i].Failing? ==> log[i].attempts <= c
  }

  // ----- arithmetic of delays ----------------------------------------------

  lemma {:induction false} WaitCovers(a: int, c: int)
    ensures 0 <= Wait(a, c)
    ensures a <= c ==> Backoff(a) <= Wait(a, c)
    ensures Wait(a, c) <= Wait(a, c + 1)
    decreases c - a
  {
    BackoffIsMonotoneAndBounded(c, c);
    BackoffIsMonotoneAndBounded(c + 1, c + 1);
    if a <= c {
      WaitCovers(a, c - 1);
    }
  }

  /** Nine delays make three hours, three and a half minutes. */
  lemma NineDelays()
    ensures Wait(1, 9) == 11010 * SECOND
  {
    assert Pow2(4) == 16;
    assert Pow2(8) == 256;
    assert Backoff(1) + Backoff(2) + Backoff(3) == 210 * SECOND;
    assert Backoff(4) == 240 * SECOND && Backoff(5) == 480 * SECOND && Backoff(6) == 960 * SECOND;
    assert Backoff(7) == 1920 * SECOND && Backoff(8) == 3600 * SECOND && Backoff(9) == 3600 * SECOND;
    assert Wait(1, 3) == Backoff(1) + Backoff(2) + Backoff(3);
    assert Wait(1, 6) == Wait(1, 3) + Backoff(4) + Backoff(5) + Backoff(6);
  }

  // ----- appending to a log ------------------------------------------------

  lemma DueLater(log: seq<Event>, c: int, t: Time, t': Time)
    requires Due(log, c, t) && t <= t'
    ensures Due(log, c, t')
  {}

  /** Nothing but a sweep makes an old failure count less. */
  lemma OldSweeps(log: seq<Event>, e: Event, i: int)
    requires -1 <= i < |log|
    ensures NoSweepAfter(log + [e], i) <==> NoSweepAfter(log, i) && !e.Sweeping?
  {
    var after := log + [e];
    if NoSweepAfter(after, i) {
      assert after[|log|] == e;
      forall m | 0 <= m < |log| && i < m ensures !log[m].Sweeping? {
        assert after[m] == log[m];
      }
    }
  }

  lemma DueAppend(log: seq<Event>, e: Event, c: int, t: Time)
    requires Due(log, c, t) && !e.Failing?
    ensures Due(log + [e], c, t)
  {
    forall i | 0 <= i < |log| && NoSweepAfter(log + [e], i) ensures NoSweepAfter(log, i) {
      OldSweeps(log, e, i);
    }
  }

  lemma DueAfterSweep(log: seq<Event>, at: Time, c: int, t: Time)
    ensures Due(log + [Sweeping(at)], c, t) && Patient(log + [Sweeping(at)], c, t)
  {
    assert (log + [Sweeping(at)])[|log|].Sweeping?;
  }

  lemma DueAfterFailure(log: seq<Event>, c: int, t: Time)
    requires Due(log, c - 1, t)
    ensures Due(log + [Failing(t, c)], c, t + Backoff(c))
  {
    var after := log + [Failing(t, c)];
    forall i | 0 <= i < |after| && after[i].Failing? && NoSweepAfter(after, i)
      ensures after[i].attempts <= c + 1 && after[i].at + Wait(after[i].attempts, c) <= t + Backoff(c)
    {
      if i < |log| {
        OldSweeps(log, Failing(t, c), i);
        BackoffIsMonotoneAndBounded(c, c);
      }
    }
  }

  lemma FirstStays(log: seq<Event>, e: Event, i: int)
    requires IsFirstFailure(log, i)
    ensures IsFirstFailure(log + [e], i)
  {
    assert (log + [e])[..i] == log[..i];
  }

  lemma PatientAppend(log: seq<Event>, e: Event, c: int, t: Time)
    requires Patient(log, c, t) && (c <= 0 ==> !e.Failing?)
    ensures Patient(log + [e], c, t)
  {
    OldSweeps(log, e, -1);
    if NoSweepAfter(log + [e], -1) && c > 0 {
      var i :| IsFirstFailure(log, i) && log[i].at + Wait(1, c) <= t;
      FirstStays(log, e, i);
    }
  }

  lemma PatientLater(log: seq<Event>, c: int, t: Time, t': Time)
    requires Patient(log, c, t) && t <= t'
    ensures Patient(log, c, t')
  {}

  /** A further failure is paid for with its own delay. */
  lemma PatientAfterFailure(log: seq<Event>, c: int, t: Time)
    requires Patient(log, c - 1, t) && c >= 1
    ensures Patient(log + [Failing(t, c)], c, t + Backoff(c))
  {
    var after := log + [Failing(t, c)];
    OldSweeps(log, Failing(t, c), -1);
    if NoSweepAfter(after, -1) {
      if c == 1 {
        assert after[..|log|] == log;
        assert IsFirstFailure(after, |log|) && Wait(1, 1) == Wait(1, 0) + Backoff(1);
      } else {
        var i :| IsFirstFailure(log, i) && log[i].at + Wait(1, c - 1) <= t;
        FirstStays(log, Failing(t, c), i);
      }
    }
  }

  lemma SpacedAppend(log: seq<Event>, e: Event, c: int, t: Time)
    requires Spaced(log)
    requires e.Claiming? ==> Due(log, c, t) && t <= e.at && FailsWithin(log, c)
    ensures Spaced(log + [e])
  {
    var after := log + [e];
    forall i, j | 0 <= i < j < |after| && after[i].Failing? && after[j].Claiming? && NoSweepAfter(after[..j], i)
      ensures after[j].at >= after[i].at + Backoff(after[i].attempts)
    {
      if j < |log| {
        assert after[..j] == log[..j];
      } else {
        assert after[..j] == log;
        WaitCovers(after[i].attempts, c);
      }
    }
  }

  // ----- the invariant -----------------------------------------------------

  /** A row's failures are paid for before it may be claimed again. */
  ghost predicate RowPaced(row: Row, log: seq<Event>) {
    && Spaced(log)
    && FailsWithin(log, row.attempts)
    && row.attempts >= 0
    && (row.status.Pending? ==> Due(log, row.attempts, row.scheduledAt) && Patient(log, row.attempts, row.scheduledAt))
  }

  ghost predicate SlotPaced(slot: Slot, log: seq<Event>, clock: Time) {
    && slot.attempts >= 1
    && match slot.stage
       case Over => true
       case Decided(_, Finish(_, _)) => true
       case Decided(_, Retry(at)) => Due(log, slot.attempts, at) && Patient(log, slot.attempts, at)
       case _ => Due(log, slot.attempts - 1, clock) && Patient(log, slot.attempts - 1, clock)
  }

  ghost predicate SlotKept(s: State, w: nat, i: nat)
    requires HasSlot(s, w, i)
  {
    SlotOf(s, w, i).id in s.logs && SlotPaced(SlotOf(s, w, i), s.logs[SlotOf(s, w, i).id], s.clock)
  }

  ghost predicate Paced(s: State) {
    && s.rows.Keys == s.logs.Keys
    && (forall id :: id in s.rows ==> RowPaced(s.rows[id], s.logs[id]))
    && (forall w: nat, i: nat :: Live(s, w, i) ==> SlotKept(s, w, i))
  }

  lemma ClaimedPaced(row: Row, log: seq<Event>, now: Time, clock: Time)
    requires RowPaced(row, log) && row.status.Pending? && row.scheduledAt <= clock
    ensures RowPaced(row.(status := Sending, lockedAt := Some(now), attempts := row.attempts + 1), log + [Claiming(clock)])
    ensures forall slot: Slot :: slot.stage.Waiting? && slot.attempts == row.attempts + 1 ==>
      SlotPaced(slot, log + [Claiming(clock)], clock)
  {
    DueAppend(log, Claiming(clock), row.attempts, row.scheduledAt);
    DueLater(log + [Claiming(clock)], row.attempts, row.scheduledAt, clock);
    SpacedAppend(log, Claiming(clock), row.attempts, row.scheduledAt);
    PatientAppend(log, Claiming(clock), row.attempts, row.scheduledAt);
    PatientLater(log + [Claiming(clock)], row.attempts, row.scheduledAt, clock);
  }

  lemma DecidedPaced(row: Row, log: seq<Event>, slot: Slot, outcome: Outcome, clock: Time)
    requires RowPaced(row, log) && row.status.Sending? && row.attempts == slot.attempts
    requires slot.stage.Running? && SlotPaced(slot, log, clock)
    ensures var event := DecisionEvent(slot, outcome, clock);
      var log' := if event.Some? then log + [event.value] else log;
      && RowPaced(row, log')
      && SlotPaced(slot.(stage := Decided(slot.stage.startedAt, Judge(slot.template, slot.attempts, outcome, clock))), log', clock)
  {
    var event := DecisionEvent(slot, outcome, clock);
    if event.Some? {
      SpacedAppend(log, event.value, 0, 0);
      if outcome.Refused? {
        DueAfterFailure(log, slot.attempts, clock);
        BackoffIsMonotoneAndBounded(slot.attempts, slot.attempts);
        PatientAfterFailure(log, slot.attempts, clock);
      }
    }
  }

  lemma RecordedPaced(row: Row, log: seq<Event>, slot: Slot, clock: Time, sentAt: Time)
    requires RowPaced(row, log) && row.attempts == slot.attempts
    requires slot.stage.Decided? && SlotPaced(slot, log, clock)
    requires slot.stage.verdict.Finish? ==> Terminal(slot.stage.verdict.status)
    ensures RowPaced(Recorded(row, slot.stage.verdict, sentAt), log + [Recording(clock)])
  {
    SpacedAppend(log, Recording(clock), 0, 0);
    match slot.stage.verdict
    case Finish(_, _) =>
    case Retry(at) =>
      DueAppend(log, Recording(clock), slot.attempts, at);
      PatientAppend(log, Recording(clock), slot.attempts, at);
  }

  lemma SweptPaced(row: Row, log: seq<Event>, clock: Time)
    requires RowPaced(row, log)
    ensures RowPaced(row.(status := Pending, lockedAt := None), log + [Sweeping(clock)])
  {
    SpacedAppend(log, Sweeping(clock), 0, 0);
    DueAfterSweep(log, clock, row.attempts, row.scheduledAt);
  }

  // ----- steps -------------------------------------------------------------

  lemma SweepKeepsPaced(s: State, w: nat)
    requires ClaimSafety.Inv(s) && Timely(s) && Paced(s) && Enabled(s, SweepStale(w))
    ensures Paced(Apply(s, SweepStale(w)))
  {
    var s' := Apply(s, SweepStale(w));
    forall id | id in s'.rows ensures RowPaced(s'.rows[id], s'.logs[id]) {
      SweptPaced(s.rows[id], s.logs[id], s.clock);
    }
    forall v: nat, j: nat | Live(s', v, j) ensures SlotKept(s', v, j) {
      assert Live(s, v, j) && SlotKept(s, v, j);
      ClaimSafety.SweepSparesLiveClaims(s, w, v, j);
    }
  }

  lemma ClaimKeepsRowsPaced(s: State, w: nat, skipped: set<Id>, order: seq<Id>)
    requires ClaimSafety.Inv(s) && Paced(s) && Enabled(s, ClaimBatch(w, skipped, order))
    ensures var s' := Apply(s, ClaimBatch(w, skipped, order));
      s'.rows.Keys == s'.logs.Keys && forall id :: id in s'.rows ==> RowPaced(s'.rows[id], s'.logs[id])
  {
    var s' := Apply(s, ClaimBatch(w, skipped, order));
    forall id | id in s'.rows ensures RowPaced(s'.rows[id], s'.logs[id]) {
      if id in Ids(order) {
        ClaimedPaced(s.rows[id], s.logs[id], s.workers[w].now, s.clock);
      }
    }
  }

  lemma ClaimKeepsPaced(s: State, w: nat, skipped: set<Id>, order: seq<Id>)
    requires ClaimSafety.Inv(s) && Paced(s) && Enabled(s, ClaimBatch(w, skipped, order))
    ensures Paced(Apply(s, ClaimBatch(w, skipped, order)))
  {
    var s' := Apply(s, ClaimBatch(w, skipped, order));
    ClaimKeepsRowsPaced(s, w, skipped, order);
    forall v: nat, j: nat | Live(s', v, j) ensures SlotKept(s', v, j) {
      ClaimSafety.SlotAfterClaim(s, w, skipped, order, v, j);
      if v == w {
        assert order[j] in Ids(order);
        ClaimedPaced(s.rows[order[j]], s.logs[order[j]], s.workers[w].now, s.clock);
      } else {
        assert SlotKept(s, v, j);
      }
    }
  }

  lemma DecideKeepsPaced(s: State, w: nat, i: nat, outcome: Outcome)
    requires ClaimSafety.Inv(s) && Paced(s) && Enabled(s, Decide(w, i, outcome))
    ensures Paced(Apply(s, Decide(w, i, outcome)))
  {
    var s' := Apply(s, Decide(w, i, outcome));
    var slot := SlotOf(s, w, i);
    assert Live(s, w, i) && SlotKept(s, w, i) && ClaimSafety.SlotFits(s, w, i);
    DecidedPaced(s.rows[slot.id], s.logs[slot.id], slot, outcome, s.clock);
    ClaimSafety.StagesAfter(s, w, i, SlotOf(s', w, i).stage);
    forall v: nat, j: nat | Live(s', v, j) ensures SlotKept(s', v, j) {
      assert Live(s, v, j) && SlotKept(s, v, j);
    }
  }

  lemma WriteKeepsPaced(s: State, w: nat, i: nat, sentAt: Time)
    requires ClaimSafety.Inv(s) && Paced(s) && Enabled(s, WriteOutcome(w, i, sentAt))
    ensures Paced(Apply(s, WriteOutcome(w, i, sentAt)))
  {
    var s' := Apply(s, WriteOutcome(w, i, sentAt));
    var slot := SlotOf(s, w, i);
    assert Live(s, w, i) && SlotKept(s, w, i) && ClaimSafety.SlotFits(s, w, i);
    RecordedPaced(s.rows[slot.id], s.logs[slot.id], slot, s.clock, sentAt);
    ClaimSafety.StagesAfter(s, w, i, Over);
    forall v: nat, j: nat | Live(s', v, j) ensures SlotKept(s', v, j) {
      assert Live(s, v, j) && SlotKept(s, v, j) && SlotOf(s, v, j).id != slot.id;
    }
  }

  lemma StageKeepsPaced(s: State, step: Step)
    requires ClaimSafety.Inv(s) && Paced(s) && Enabled(s, step) && (step.Start? || step.LoseOutcome?)
    ensures Paced(Apply(s, step))
  {
    var s' := Apply(s, step);
    ClaimSafety.StagesAfter(s, step.w, step.i, SlotOf(s', step.w, step.i).stage);
    forall v: nat, j: nat | Live(s', v, j) ensures SlotKept(s', v, j) {
      assert Live(s, v, j) && SlotKept(s, v, j);
    }
  }

  /** No claim that was there before is changed, and none is new. */
  ghost predicate SlotsStay(s: State, s': State) {
    forall v: nat, j: nat :: Live(s', v, j) ==> Live(s, v, j) && SlotOf(s', v, j) == SlotOf(s, v, j)
  }

  lemma SlotsStayKept(s: State, s': State)
    requires Paced(s) && SlotsStay(s, s') && s.clock <= s'.clock
    requires forall id :: id in s.logs ==> id in s'.logs && s'.logs[id] == s.logs[id]
    ensures forall v: nat, j: nat :: Live(s', v, j) ==> SlotKept(s', v, j)
  {
    forall v: nat, j: nat | Live(s', v, j) ensures SlotKept(s', v, j) {
      assert Live(s, v, j) && SlotKept(s, v, j);
    }
  }

  lemma WorkerKeepsPaced(s: State, step: Step)
    requires Paced(s) && Enabled(s, step) && (step.Begin? || step.CountSent? || step.End? || step.Crash?)
    ensures Paced(Apply(s, step))
  {
    var s' := Apply(s, step);
    assert SlotsStay(s, s') by {
      forall v: nat, j: nat | Live(s', v, j) ensures Live(s, v, j) && SlotOf(s', v, j) == SlotOf(s, v, j) {
        assert v != step.w;
      }
    }
    SlotsStayKept(s, s');
  }

  lemma QuietKeepsPaced(s: State, step: Step)
    requires Paced(s) && Enabled(s, step) && (step.Enqueue? || step.Tick?)
    ensures Paced(Apply(s, step))
  {
    var s' := Apply(s, step);
    assert s'.workers == s.workers && SlotsStay(s, s');
    SlotsStayKept(s, s');
  }

  lemma StepKeepsPaced(s: State, step: Step)
    requires ClaimSafety.Inv(s) && Timely(s) && Paced(s) && Enabled(s, step)
    ensures Paced(Apply(s, step))
  {
    match step
    case SweepStale(w) => SweepKeepsPaced(s, w);
    case ClaimBatch(w, skipped, order) => ClaimKeepsPaced(s, w, skipped, order);
    case Decide(w, i, outcome) => DecideKeepsPaced(s, w, i, outcome);
    case WriteOutcome(w, i, sentAt) => WriteKeepsPaced(s, w, i, sentAt);
    case Start(_, _) => StageKeepsPaced(s, step);
    case LoseOutcome(_, _) => StageKeepsPaced(s, step);
    case Enqueue(_, _, _, _, _) => QuietKeepsPaced(s, step);
    case Tick(_) => QuietKeepsPaced(s, step);
    case _ => WorkerKeepsPaced(s, step);
  }

  lemma {:induction false} RunKeepsPaced(trace: seq<State>, steps: seq<Step>, k: nat)
    requires IsRun(trace, steps) && IsTimely(trace) && k < |trace|
    ensures ClaimSafety.Inv(trace[k]) && Paced(trace[k])
  {
    ClaimSafety.RunKeepsInv(trace, steps, k);
    if k > 0 {
      RunKeepsPaced(trace, steps, k - 1);
      StepKeepsPaced(trace[k - 1], steps[k - 1]);
    }
  }

  // ----- main results ------------------------------------------------------

  /** In every timely run, a claim that follows a transient failure of its row
      comes at least that failure's delay later, unless the row was swept in
      between (its worker died before recording the failure). */
  lemma ClaimsAreSpaced(trace: seq<State>, steps: seq<Step>, k: nat, id: Id, i: nat, j: nat)
    requires IsRun(trace, steps) && IsTimely(trace) && k < |trace| && id in trace[k].logs
    requires var log := trace[k].logs[id];
      i < j < |log| && log[i].Failing? && log[j].Claiming? && NoSweepAfter(log[..j], i)
    ensures trace[k].logs[id][j].at >= trace[k].logs[id][i].at + Backoff(trace[k].logs[id][i].attempts)
  {
    RunKeepsPaced(trace, steps, k);
  }

  /** A message that was never swept is only given up on after a transient
      failure once 11010 seconds have passed since its first failure. */
  lemma GivenUpOnlyAfterThreeHours(trace: seq<State>, steps: seq<Step>, k: nat) returns (first: nat)
    requires IsRun(trace, steps) && IsTimely(trace) && k < |steps|
    requires steps[k].Decide? && steps[k].outcome == Refused(false)
    requires var id := SlotOf(trace[k], steps[k].w, steps[k].i).id;
      id in trace[k].logs && NoSweepAfter(trace[k].logs[id], -1)
    requires SlotOf(trace[k + 1], steps[k].w, steps[k].i).stage.verdict.Finish?
    ensures var log := trace[k].logs[SlotOf(trace[k], steps[k].w, steps[k].i).id];
      IsFirstFailure(log, first) && trace[k].clock >= log[first].at + 11010 * SECOND
  {
    RunKeepsPaced(trace, steps, k);
    var slot := SlotOf(trace[k], steps[k].w, steps[k].i);
    assert Live(trace[k], steps[k].w, steps[k].i);
    assert SlotKept(trace[k], steps[k].w, steps[k].i) && ClaimSafety.SlotFits(trace[k], steps[k].w, steps[k].i);
    assert slot.attempts >= MAX_ATTEMPTS;
    var log, c := trace[k].logs[slot.id], slot.attempts - 1;
    assert Patient(log, c, trace[k].clock);
    var i :| IsFirstFailure(log, i) && log[i].at + Wait(1, c) <= trace[k].clock;
    first := i;
    WaitGrows(9, c);
    NineDelays();
  }

  lemma {:induction false} WaitGrows(c: int, d: int)
    requires c <= d
    ensures Wait(1, c) <= Wait(1, d)
    decreases d - c
  {
    if c < d {
      WaitCovers(1, c);
      WaitGrows(c + 1, d);
    }
  }
}

/**
 What a delivery makes of its row, for each thing it may run into: over one
 delivery and over whole runs.
 */
module Outcomes {
  import opened Options
  import opened OutboxTable
  import opened WorkerProtocol
  import Templates

  /** A refusal that is not the last word. */
  predicate IsTriedAgain(attempts: int, outcome: Outcome) {
    outcome.Refused? && !outcome.permanent && attempts < 10
  }

  /** `after` is the row `before` once the outcome of delivering it, claimed for the
      `attempts`-th time, is recorded at `writtenAt`. */
  predicate Shows(before: Row, after: Row, template: string, attempts: int, outcome: Outcome, decidedAt: Time, writtenAt: Time) {
    && (after.status == Sent <==> outcome == Accepted)
    && (after.status == Skipped <==> outcome == OptedOut || outcome == NoTransport)
    && (after.status == Failed <==>
          outcome == UnknownTemplate || outcome == Refused(true) || (outcome == Refused(false) && attempts >= 10))
    && (after.status == Pending <==> IsTriedAgain(attempts, outcome))
    && after.payload == (if outcome == UnknownTemplate || (Templates.IsSensitive(template) && after.status != Pending)
                         then "{}" else before.payload)
    && after.sentAt == (if after.status == Sent then Some(writtenAt) else before.sentAt)
    && after.scheduledAt == (if after.status == Pending then decidedAt + Backoff(attempts) else before.scheduledAt)
    && after.lockedAt == None
    && after.attempts == before.attempts && after.priority == before.priority && after.template == before.template
  }

  lemma RecordedShows(row: Row, template: string, attempts: int, outcome: Outcome, decidedAt: Time, writtenAt: Time)
    ensures Shows(row, Recorded(row, Judge(template, attempts, outcome, decidedAt), writtenAt),
                  template, attempts, outcome, decidedAt, writtenAt)
  {}

  // ----- over runs ---------------------------------------------------------

  /** Slot `i` of worker `w` was decided by `step`, and nothing but its stage differs. */
  predicate DecidedBy(s: State, step: Step, w: nat, i: nat, now: Slot) {
    && step.Decide? && step.w == w && step.i == i
    && HasSlot(s, w, i) && now == SlotOf(s, w, i).(stage := now.stage)
    && now.stage.Decided? && now.stage.verdict == Judge(now.template, now.attempts, step.outcome, s.clock)
  }

  lemma StepDecides(s: State, step: Step, w: nat, i: nat)
    requires Enabled(s, step) && HasSlot(Apply(s, step), w, i) && SlotOf(Apply(s, step), w, i).stage.Decided?
    ensures var now := SlotOf(Apply(s, step), w, i);
      (HasSlot(s, w, i) && SlotOf(s, w, i) == now) || DecidedBy(s, step, w, i, now)
  {}

  /** Slot `i` of worker `w` is `now`, and decided. */
  predicate IsDecided(s: State, w: nat, i: nat, now: Slot) {
    HasSlot(s, w, i) && SlotOf(s, w, i) == now && now.stage.Decided?
  }

  lemma JustBefore(trace: seq<State>, steps: seq<Step>, m: nat, w: nat, i: nat, now: Slot)
    requires IsRun(trace, steps) && m < |trace| && IsDecided(trace[m], w, i, now)
    ensures m > 0 && (IsDecided(trace[m - 1], w, i, now) || DecidedBy(trace[m - 1], steps[m - 1], w, i, now))
  {
    assert m > 0;
    StepDecides(trace[m - 1], steps[m - 1], w, i);
  }

  lemma {:induction false} DecidedAt(trace: seq<State>, steps: seq<Step>, m: nat, w: nat, i: nat, now: Slot) returns (k: nat)
    requires IsRun(trace, steps) && m < |trace| && IsDecided(trace[m], w, i, now)
    ensures k < m && DecidedBy(trace[k], steps[k], w, i, now)
  {
    JustBefore(trace, steps, m, w, i, now);
    k := m - 1;
    if !DecidedBy(trace[k], steps[k], w, i, now) {
      k := DecidedAt(trace, steps, m - 1, w, i, now);
    }
  }

  /** In every run: what is recorded in a row is what the delivery before it ran into. */
  lemma RecordsWhatHappened(trace: seq<State>, steps: seq<Step>, m: nat) returns (k: nat)
    requires IsRun(trace, steps) && m < |steps| && steps[m].WriteOutcome?
    requires SlotOf(trace[m], steps[m].w, steps[m].i).id in trace[m].rows
    ensures k < m && steps[k].Decide? && steps[k].w == steps[m].w && steps[k].i == steps[m].i
    ensures var slot := SlotOf(trace[m], steps[m].w, steps[m].i);
      && slot.id in trace[m + 1].rows
      && Shows(trace[m].rows[slot.id], trace[m + 1].rows[slot.id], slot.template, slot.attempts,
               steps[k].outcome, trace[k].clock, steps[m].sentAt)
      && forall id :: id in trace[m].rows && id != slot.id ==> id in trace[m + 1].rows && trace[m + 1].rows[id] == trace[m].rows[id]
  {
    var slot := SlotOf(trace[m], steps[m].w, steps[m].i);
    k := DecidedAt(trace, steps, m, steps[m].w, steps[m].i, slot);
    RecordedShows(trace[m].rows[slot.id], slot.template, slot.attempts, steps[k].outcome, trace[k].clock, steps[m].sentAt);
  }
}

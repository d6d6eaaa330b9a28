/**
 What every timely run keeps: a claimed row has one owner, a final state is
 never left, a message is sent at most once more than it was swept, its work is
 bounded, and its payload lives exactly as long as it is needed.
 */
module ClaimSafety {
  import opened Options
  import opened OutboxTable
  import opened WorkerProtocol
  import Templates

  /** How often each thing happened to a row. */
  datatype Tally = Tally(claims: nat, sends: nat, records: nat, sweeps: nat)

  function Add(t: Tally, e: Event): Tally {
    match e
    case Claiming(_) => t.(claims := t.claims + 1)
    case Accepting(_) => t.(sends := t.sends + 1)
    case Failing(_, _) => t
    case Recording(_) => t.(records := t.records + 1)
    case Sweeping(_) => t.(sweeps := t.sweeps + 1)
  }

  function Count(log: seq<Event>): Tally {
    if log == [] then Tally(0, 0, 0, 0) else Add(Count(log[..|log| - 1]), log[|log| - 1])
  }

  lemma CountAppend(log: seq<Event>, e: Event)
    ensures Count(log + [e]) == Add(Count(log), e)
  {
    assert (log + [e])[..|log|] == log;
  }

  /** The work a row can still cause: each claim and each recorded outcome
      lowers it, only a sweep raises it. */
  function Measure(row: Row, sweeps: nat): int {
    match row.status
    case Pending => 2 * (MAX_ATTEMPTS + sweeps - row.attempts)
    case Sending => 2 * (MAX_ATTEMPTS + sweeps - row.attempts) + 1
    case _ => 0
  }

  predicate RowOk(row: Row, t: Tally, queued: Payload) {
    && row.attempts == t.claims
    && t.sends <= t.sweeps + 1
    && row.attempts <= MAX_ATTEMPTS + t.sweeps
    && t.claims + t.records + Measure(row, t.sweeps) <= 2 * MAX_ATTEMPTS + t.sweeps
    && (row.status.Pending? ==> row.attempts <= MAX_ATTEMPTS - 1 + t.sweeps && t.sends <= t.sweeps)
    && (row.status.Sent? ==> t.sends >= 1)
    && (if Terminal(row.status)
        then row.payload in {queued, EMPTY_PAYLOAD} && (Templates.IsSensitive(row.template) ==> row.payload == EMPTY_PAYLOAD)
        else row.payload == queued)
  }

  /** What a worker knows of a row it holds. */
  predicate SlotOk(slot: Slot, now: Time, row: Row, t: Tally) {
    && row.status.Sending?
    && row.lockedAt == Some(now)
    && row.attempts == slot.attempts
    && row.template == slot.template
    && match slot.stage
       case Waiting => t.sends <= t.sweeps
       case Running(_) => t.sends <= t.sweeps
       case Decided(_, Finish(status, clear)) =>
         && Terminal(status)
         && (Templates.IsSensitive(row.template) ==> clear)
         && (status.Sent? ==> t.sends >= 1)
       case Decided(_, Retry(_)) => slot.attempts < MAX_ATTEMPTS && t.sends <= t.sweeps
       case Over => true
  }

  predicate SameKeys(s: State) {
    s.rows.Keys == s.logs.Keys == s.queued.Keys
  }

  predicate RowsOk(s: State) {
    SameKeys(s) && forall id :: id in s.rows ==> RowOk(s.rows[id], Count(s.logs[id]), s.queued[id])
  }

  predicate SlotFits(s: State, w: nat, i: nat)
    requires HasSlot(s, w, i)
  {
    var id := SlotOf(s, w, i).id;
    id in s.rows && id in s.logs && SlotOk(SlotOf(s, w, i), s.workers[w].now, s.rows[id], Count(s.logs[id]))
  }

  ghost predicate SlotsOk(s: State) {
    forall w: nat, i: nat :: Live(s, w, i) ==> SlotFits(s, w, i)
  }

  /** No row is held twice. */
  ghost predicate Exclusive(s: State) {
    forall w: nat, i: nat, v: nat, j: nat ::
      Live(s, w, i) && Live(s, v, j) && SlotOf(s, w, i).id == SlotOf(s, v, j).id ==> w == v && i == j
  }

  ghost predicate Inv(s: State) {
    Clocked(s) && RowsOk(s) && SlotsOk(s) && Exclusive(s)
  }

  // ----- what each statement does to one row -------------------------------

  lemma SweptRow(row: Row, t: Tally, queued: Payload, at: Time)
    requires RowOk(row, t, queued) && row.status.Sending?
    ensures RowOk(row.(status := Pending, lockedAt := None), Add(t, Sweeping(at)), queued)
  {}

  lemma ClaimedRow(row: Row, t: Tally, queued: Payload, now: Time, at: Time)
    requires RowOk(row, t, queued) && row.status.Pending?
    ensures var row' := row.(status := Sending, lockedAt := Some(now), attempts := row.attempts + 1);
      && RowOk(row', Add(t, Claiming(at)), queued)
      && forall id, priority :: SlotOk(Slot(id, row.template, row'.attempts, priority, Waiting), now, row', Add(t, Claiming(at)))
  {}

  lemma JudgedRow(row: Row, t: Tally, queued: Payload, slot: Slot, now: Time, outcome: Outcome, clock: Time)
    requires RowOk(row, t, queued) && SlotOk(slot, now, row, t) && slot.stage.Running?
    ensures var event := DecisionEvent(slot, outcome, clock);
      var t' := if event.Some? then Add(t, event.value) else t;
      && RowOk(row, t', queued)
      && SlotOk(slot.(stage := Decided(slot.stage.startedAt, Judge(slot.template, slot.attempts, outcome, clock))), now, row, t')
  {}

  lemma WrittenRow(row: Row, t: Tally, queued: Payload, slot: Slot, now: Time, sentAt: Time, at: Time)
    requires RowOk(row, t, queued) && SlotOk(slot, now, row, t) && slot.stage.Decided?
    ensures RowOk(Recorded(row, slot.stage.verdict, sentAt), Add(t, Recording(at)), queued)
  {}

  // ----- what each step does to the invariant ------------------------------

  /** Changing one slot's stage touches no other slot. */
  lemma StagesAfter(s: State, w: nat, i: nat, stage: Stage)
    requires HasSlot(s, w, i)
    ensures var s' := WithStage(s, w, i, stage);
      && (forall v: nat, j: nat :: HasSlot(s', v, j) <==> HasSlot(s, v, j))
      && (forall v: nat, j: nat :: HasSlot(s, v, j) ==>
           && SlotOf(s', v, j) == (if v == w && j == i then SlotOf(s, v, j).(stage := stage) else SlotOf(s, v, j))
           && s'.workers[v].now == s.workers[v].now)
  {}

  /** In a timely state a sweep takes no row a worker still holds. */
  lemma SweepSparesLiveClaims(s: State, w: nat, v: nat, j: nat)
    requires Inv(s) && Timely(s) && Enabled(s, SweepStale(w)) && Live(s, v, j)
    ensures SlotOf(s, v, j).id !in StaleIds(s.rows, s.workers[w].now)
  {
    assert SlotFits(s, v, j);
  }

  lemma SweepKeepsRows(s: State, w: nat)
    requires Inv(s) && Enabled(s, SweepStale(w))
    ensures RowsOk(Apply(s, SweepStale(w)))
  {
    var s' := Apply(s, SweepStale(w));
    forall id | id in s'.rows ensures RowOk(s'.rows[id], Count(s'.logs[id]), s'.queued[id]) {
      if id in StaleIds(s.rows, s.workers[w].now) {
        CountAppend(s.logs[id], Sweeping(s.clock));
        SweptRow(s.rows[id], Count(s.logs[id]), s.queued[id], s.clock);
      }
    }
  }

  lemma SweepKeepsInv(s: State, w: nat)
    requires Inv(s) && Timely(s) && Enabled(s, SweepStale(w))
    ensures var s' := Apply(s, SweepStale(w)); RowsOk(s') && SlotsOk(s') && Exclusive(s')
  {
    var s' := Apply(s, SweepStale(w));
    SweepKeepsRows(s, w);
    forall v: nat, j: nat | Live(s', v, j) ensures Live(s, v, j) && SlotOf(s', v, j) == SlotOf(s, v, j) && SlotFits(s', v, j) {
      assert Live(s, v, j);
      SweepSparesLiveClaims(s, w, v, j);
      assert SlotFits(s, v, j);
    }
  }

  lemma ClaimKeepsRows(s: State, w: nat, skipped: set<Id>, order: seq<Id>)
    requires Inv(s) && Enabled(s, ClaimBatch(w, skipped, order))
    ensures RowsOk(Apply(s, ClaimBatch(w, skipped, order)))
  {
    var s' := Apply(s, ClaimBatch(w, skipped, order));
    forall id | id in s'.rows ensures RowOk(s'.rows[id], Count(s'.logs[id]), s'.queued[id]) {
      if id in Ids(order) {
        CountAppend(s.logs[id], Claiming(s.clock));
        ClaimedRow(s.rows[id], Count(s.logs[id]), s.queued[id], s.workers[w].now, s.clock);
      }
    }
  }

  /** A claimed row was pending, so no worker held it. */
  lemma SlotAfterClaim(s: State, w: nat, skipped: set<Id>, order: seq<Id>, v: nat, j: nat)
    requires Inv(s) && Enabled(s, ClaimBatch(w, skipped, order))
    requires Live(Apply(s, ClaimBatch(w, skipped, order)), v, j)
    ensures var s' := Apply(s, ClaimBatch(w, skipped, order));
      && SlotFits(s', v, j)
      && (if v == w then j < |order| && SlotOf(s', v, j).id == order[j]
          else Live(s, v, j) && SlotOf(s', v, j) == SlotOf(s, v, j) && SlotOf(s, v, j).id !in Ids(order))
  {
    var s' := Apply(s, ClaimBatch(w, skipped, order));
    if v == w {
      var id := order[j];
      assert id in Ids(order);
      CountAppend(s.logs[id], Claiming(s.clock));
      ClaimedRow(s.rows[id], Count(s.logs[id]), s.queued[id], s.workers[w].now, s.clock);
    } else {
      assert Live(s, v, j) && SlotFits(s, v, j);
    }
  }

  lemma ClaimKeepsInv(s: State, w: nat, skipped: set<Id>, order: seq<Id>)
    requires Inv(s) && Enabled(s, ClaimBatch(w, skipped, order))
    ensures var s' := Apply(s, ClaimBatch(w, skipped, order)); RowsOk(s') && SlotsOk(s') && Exclusive(s')
  {
    var s' := Apply(s, ClaimBatch(w, skipped, order));
    ClaimKeepsRows(s, w, skipped, order);
    BatchIsSmall(s, w, skipped, order);
    forall v: nat, j: nat | Live(s', v, j) ensures SlotFits(s', v, j) {
      SlotAfterClaim(s, w, skipped, order, v, j);
    }
    forall v: nat, j: nat, u: nat, l: nat | Live(s', v, j) && Live(s', u, l) && SlotOf(s', v, j).id == SlotOf(s', u, l).id
      ensures v == u && j == l
    {
      SlotAfterClaim(s, w, skipped, order, v, j);
      SlotAfterClaim(s, w, skipped, order, u, l);
    }
  }

  lemma DecideKeepsInv(s: State, w: nat, i: nat, outcome: Outcome)
    requires Inv(s) && Enabled(s, Decide(w, i, outcome))
    ensures var s' := Apply(s, Decide(w, i, outcome)); RowsOk(s') && SlotsOk(s') && Exclusive(s')
  {
    var s' := Apply(s, Decide(w, i, outcome));
    var slot := SlotOf(s, w, i);
    var id := slot.id;
    assert Live(s, w, i) && SlotFits(s, w, i);
    var event := DecisionEvent(slot, outcome, s.clock);
    if event.Some? {
      CountAppend(s.logs[id], event.value);
    }
    JudgedRow(s.rows[id], Count(s.logs[id]), s.queued[id], slot, s.workers[w].now, outcome, s.clock);
    StagesAfter(s, w, i, SlotOf(s', w, i).stage);
    forall v: nat, j: nat | Live(s', v, j) ensures Live(s, v, j) && SlotOf(s', v, j).id == SlotOf(s, v, j).id && SlotFits(s', v, j) {
      assert Live(s, v, j) && SlotFits(s, v, j);
    }
  }

  lemma WriteKeepsInv(s: State, w: nat, i: nat, sentAt: Time)
    requires Inv(s) && Enabled(s, WriteOutcome(w, i, sentAt))
    ensures var s' := Apply(s, WriteOutcome(w, i, sentAt)); RowsOk(s') && SlotsOk(s') && Exclusive(s')
  {
    var s' := Apply(s, WriteOutcome(w, i, sentAt));
    var slot := SlotOf(s, w, i);
    var id := slot.id;
    assert Live(s, w, i) && SlotFits(s, w, i);
    CountAppend(s.logs[id], Recording(s.clock));
    WrittenRow(s.rows[id], Count(s.logs[id]), s.queued[id], slot, s.workers[w].now, sentAt, s.clock);
    StagesAfter(s, w, i, Over);
    forall v: nat, j: nat | Live(s', v, j) ensures Live(s, v, j) && SlotOf(s', v, j) == SlotOf(s, v, j) && SlotFits(s', v, j) {
      assert Live(s, v, j) && SlotFits(s, v, j) && SlotOf(s, v, j).id != id;
    }
  }

  lemma StageKeepsInv(s: State, step: Step)
    requires Inv(s) && Enabled(s, step) && (step.Start? || step.LoseOutcome?)
    ensures var s' := Apply(s, step); RowsOk(s') && SlotsOk(s') && Exclusive(s')
  {
    var s' := Apply(s, step);
    StagesAfter(s, step.w, step.i, SlotOf(s', step.w, step.i).stage);
    forall v: nat, j: nat | Live(s', v, j) ensures Live(s, v, j) && SlotOf(s', v, j).id == SlotOf(s, v, j).id && SlotFits(s', v, j) {
      assert Live(s, v, j) && SlotFits(s, v, j);
    }
  }

  /** The remaining steps change no claimed row and no slot. */
  lemma QuietKeepsInv(s: State, step: Step)
    requires Inv(s) && Enabled(s, step)
    requires step.Enqueue? || step.Begin? || step.CountSent? || step.End? || step.Crash? || step.Tick?
    ensures var s' := Apply(s, step); RowsOk(s') && SlotsOk(s') && Exclusive(s')
  {
    var s' := Apply(s, step);
    forall v: nat, j: nat | Live(s', v, j) ensures Live(s, v, j) && SlotOf(s', v, j) == SlotOf(s, v, j) && SlotFits(s', v, j) {
      assert Live(s, v, j) && SlotFits(s, v, j);
    }
  }

  lemma StepKeepsInv(s: State, step: Step)
    requires Inv(s) && Timely(s) && Enabled(s, step)
    ensures Inv(Apply(s, step))
  {
    StepKeepsClocked(s, step);
    match step
    case SweepStale(w) => SweepKeepsInv(s, w);
    case ClaimBatch(w, skipped, order) => ClaimKeepsInv(s, w, skipped, order);
    case Decide(w, i, outcome) => DecideKeepsInv(s, w, i, outcome);
    case WriteOutcome(w, i, sentAt) => WriteKeepsInv(s, w, i, sentAt);
    case Start(_, _) => StageKeepsInv(s, step);
    case LoseOutcome(_, _) => StageKeepsInv(s, step);
    case _ => QuietKeepsInv(s, step);
  }

  lemma {:induction false} RunKeepsInv(trace: seq<State>, steps: seq<Step>, k: nat)
    requires IsRun(trace, steps) && IsTimely(trace) && k < |trace|
    ensures Inv(trace[k])
  {
    if k > 0 {
      RunKeepsInv(trace, steps, k - 1);
      StepKeepsInv(trace[k - 1], steps[k - 1]);
    }
  }

  // ----- main results ------------------------------------------------------

  lemma StepKeepsFinalRows(s: State, step: Step, id: Id)
    requires Inv(s) && Timely(s) && Enabled(s, step)
    requires id in s.rows && Terminal(s.rows[id].status)
    ensures id in Apply(s, step).rows && Apply(s, step).rows[id] == s.rows[id]
  {
    if step.WriteOutcome? {
      assert Live(s, step.w, step.i) && SlotFits(s, step.w, step.i);
    }
  }

  /** A message that reached a final state is never touched again: not its
      status, its payload, nor the time it was sent. */
  lemma {:induction false} FinalStatesAreFinal(trace: seq<State>, steps: seq<Step>, j: nat, k: nat, id: Id)
    requires IsRun(trace, steps) && IsTimely(trace) && j <= k < |trace|
    requires id in trace[j].rows && Terminal(trace[j].rows[id].status)
    ensures id in trace[k].rows && trace[k].rows[id] == trace[j].rows[id]
    decreases k
  {
    if j < k {
      FinalStatesAreFinal(trace, steps, j, k - 1, id);
      RunKeepsInv(trace, steps, k - 1);
      StepKeepsFinalRows(trace[k - 1], steps[k - 1], id);
    }
  }

  /** At every moment a row is held by at most one worker, and then it is
      `sending` under that worker's lock. */
  lemma ClaimsAreExclusive(trace: seq<State>, steps: seq<Step>, k: nat, w: nat, i: nat)
    requires IsRun(trace, steps) && IsTimely(trace) && k < |trace| && Live(trace[k], w, i)
    ensures var id := SlotOf(trace[k], w, i).id;
      && id in trace[k].rows
      && trace[k].rows[id].status.Sending?
      && trace[k].rows[id].lockedAt == Some(trace[k].workers[w].now)
      && forall v: nat, j: nat :: Live(trace[k], v, j) && SlotOf(trace[k], v, j).id == id ==> v == w && j == i
  {
    RunKeepsInv(trace, steps, k);
    assert SlotFits(trace[k], w, i);
  }

  /** A message is delivered at most once more than its claim was swept, and
      one recorded as sent was really delivered. */
  lemma SendsAreBounded(trace: seq<State>, steps: seq<Step>, k: nat, id: Id)
    requires IsRun(trace, steps) && IsTimely(trace) && k < |trace| && id in trace[k].rows
    ensures id in trace[k].logs
    ensures Count(trace[k].logs[id]).sends <= 1 + Count(trace[k].logs[id]).sweeps
    ensures trace[k].rows[id].status.Sent? ==> Count(trace[k].logs[id]).sends >= 1
  {
    RunKeepsInv(trace, steps, k);
  }

  /** The attempts of a row count its claims, and only sweeps take them past
      the limit; the claims and outcomes of a row never number more than twenty
      plus its sweeps. Without a sweep, a row claimed ten times is in its last
      delivery or done. */
  lemma WorkIsBounded(trace: seq<State>, steps: seq<Step>, k: nat, id: Id)
    requires IsRun(trace, steps) && IsTimely(trace) && k < |trace| && id in trace[k].rows
    ensures id in trace[k].logs
    ensures var row, t := trace[k].rows[id], Count(trace[k].logs[id]);
      && row.attempts == t.claims
      && (row.status.Pending? ==> row.attempts <= 9 + t.sweeps)
      && (row.status.Sending? ==> row.attempts <= 10 + t.sweeps)
      && t.claims <= 10 + t.sweeps
      && t.claims + t.records + Measure(row, t.sweeps) <= 20 + t.sweeps
      && Measure(row, t.sweeps) >= 0
      && (t.sweeps == 0 && t.claims == 10 ==> row.status.Sending? || Terminal(row.status))
  {
    RunKeepsInv(trace, steps, k);
  }

  /** `after` did as many claims, outcomes and sweeps more than `before` as the
      measure fell. */
  predicate Pays(row: Row, before: Tally, row': Row, after: Tally) {
    Measure(row', after.sweeps) <= Measure(row, before.sweeps) + (after.sweeps - before.sweeps)
      - (after.claims - before.claims) - (after.records - before.records)
  }

  /** What one step does to one row, and what it appends to its log. */
  ghost predicate RowStep(s: State, step: Step, id: Id, row: Row, row': Row, events: seq<Event>)
    requires Enabled(s, step)
  {
    if events == [] then row' == row
    else
      && |events| == 1
      && match events[0]
         case Sweeping(_) => row.status.Sending? && row' == row.(status := Pending, lockedAt := None)
         case Claiming(_) =>
           row.status.Pending? && row'.status.Sending? && row'.attempts == row.attempts + 1
         case Recording(_) =>
           && step.WriteOutcome? && SlotOf(s, step.w, step.i).id == id
           && row' == Recorded(row, SlotOf(s, step.w, step.i).stage.verdict, step.sentAt)
         case _ => row' == row
  }

  lemma StepOnRow(s: State, step: Step, id: Id) returns (events: seq<Event>)
    requires SameKeys(s) && Enabled(s, step) && id in s.rows
    ensures id in Apply(s, step).rows && id in Apply(s, step).logs
    ensures Apply(s, step).logs[id] == s.logs[id] + events
    ensures RowStep(s, step, id, s.rows[id], Apply(s, step).rows[id], events)
  {
    events := Apply(s, step).logs[id][|s.logs[id]|..];
  }

  lemma RowStepPays(s: State, step: Step, id: Id, row: Row, row': Row, e: Event, before: Tally, queued: Payload)
    requires Enabled(s, step) && RowStep(s, step, id, row, row', [e]) && RowOk(row, before, queued)
    requires e.Recording? ==> SlotOk(SlotOf(s, step.w, step.i), s.workers[step.w].now, row, before)
    ensures Pays(row, before, row', Add(before, e))
  {}

  /** The measure falls with every claim and every outcome of a live claim, and
      rises by one with a sweep. */
  lemma MeasureFalls(s: State, step: Step, id: Id, s': State)
    requires Inv(s) && Enabled(s, step) && s' == Apply(s, step) && id in s.rows
    ensures id in s'.rows && id in s'.logs
    ensures Pays(s.rows[id], Count(s.logs[id]), s'.rows[id], Count(s'.logs[id]))
  {
    var events := StepOnRow(s, step, id);
    if events == [] {
      assert s'.logs[id] == s.logs[id];
    } else {
      var e := events[0];
      assert events == [e];
      CountAppend(s.logs[id], e);
      if e.Recording? {
        assert Live(s, step.w, step.i) && SlotFits(s, step.w, step.i);
      }
      RowStepPays(s, step, id, s.rows[id], s'.rows[id], e, Count(s.logs[id]), s.queued[id]);
    }
  }

  lemma StepKeepsQueued(s: State, step: Step, id: Id)
    requires Enabled(s, step) && id in s.rows && id in s.queued
    ensures var s' := Apply(s, step);
      && id in s'.rows && id in s'.queued && s'.queued[id] == s.queued[id]
      && s'.rows[id].template == s.rows[id].template && s'.rows[id].priority == s.rows[id].priority
  {}

  /** What is queued keeps its payload, its template and its rank. */
  lemma {:induction false} QueuedNeverChanges(trace: seq<State>, steps: seq<Step>, j: nat, k: nat)
    requires IsRun(trace, steps) && IsTimely(trace) && j < |steps| && steps[j].Enqueue? && j < k < |trace|
    ensures steps[j].id in trace[k].rows && steps[j].id in trace[k].queued
    ensures trace[k].queued[steps[j].id] == steps[j].payload
    ensures trace[k].rows[steps[j].id].template == steps[j].template
    ensures trace[k].rows[steps[j].id].priority == Templates.PriorityOf(steps[j].template, steps[j].securityNotification)
    decreases k
  {
    if j + 1 < k {
      QueuedNeverChanges(trace, steps, j, k - 1);
      StepKeepsQueued(trace[k - 1], steps[k - 1], steps[j].id);
    }
  }

  /** A one-time code stays in the table exactly while it may still be sent: as
      it was queued until a final state, wiped with it. */
  lemma PayloadLifetime(trace: seq<State>, steps: seq<Step>, j: nat, k: nat)
    requires IsRun(trace, steps) && IsTimely(trace) && j < |steps| && steps[j].Enqueue? && j < k < |trace|
    ensures steps[j].id in trace[k].rows
    ensures var row := trace[k].rows[steps[j].id];
      if !Terminal(row.status) then row.payload == steps[j].payload
      else (Templates.IsSensitive(steps[j].template) ==> row.payload == "{}")
           && row.payload in {steps[j].payload, "{}"}
  {
    RunKeepsInv(trace, steps, k);
    QueuedNeverChanges(trace, steps, j, k);
  }
}

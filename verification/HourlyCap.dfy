/**
 The hourly cap over whole runs. Counting the sent messages and claiming the
 next ones are separate statements, so workers can overshoot the cap; this
 bounds by how much, whatever they do in between.
 */
module HourlyCap {
  import opened Options
  import opened Collections
  import opened OutboxTable
  import opened WorkerProtocol

  /** The non-security messages a batch may still send. */
  function BulkLeft(batch: seq<Slot>): nat {
    if batch == [] then 0
    else BulkLeft(batch[1..]) + (if !batch[0].stage.Over? && batch[0].priority > SECURITY then 1 else 0)
  }

  /** The non-security messages a worker may send before it counts again. */
  function Budget(worker: Worker): nat {
    match worker
    case Counted(_, maxPriority) => if maxPriority > SECURITY then BATCH_SIZE else 0
    case Delivering(_, _, batch) => BulkLeft(batch)
    case _ => 0
  }

  function Budgets(workers: seq<Worker>): nat {
    if workers == [] then 0 else Budget(workers[0]) + Budgets(workers[1..])
  }

  /** The non-security messages sent in the hour before `s`. */
  function Recent(s: State): nat {
    |SentSince(s.rows, s.clock - HOUR)|
  }

  /** The most of them there can be. */
  function Bound(s: State): nat {
    if s.cap == 0 then 0 else s.cap - 1 + BATCH_SIZE * |s.workers|
  }

  // ----- arithmetic of budgets ---------------------------------------------

  lemma {:induction false} BulkLeftIsSmall(batch: seq<Slot>)
    ensures BulkLeft(batch) <= |batch|
    ensures (forall i :: 0 <= i < |batch| ==> batch[i].priority <= SECURITY) ==> BulkLeft(batch) == 0
  {
    if batch != [] {
      BulkLeftIsSmall(batch[1..]);
    }
  }

  lemma {:induction false} BulkLeftUpdate(batch: seq<Slot>, i: nat, stage: Stage)
    requires i < |batch| && !batch[i].stage.Over?
    ensures BulkLeft(batch[i := batch[i].(stage := stage)])
         == BulkLeft(batch) - (if stage.Over? && batch[i].priority > SECURITY then 1 else 0)
  {
    var after := batch[i := batch[i].(stage := stage)];
    if i == 0 {
      assert after[1..] == batch[1..];
    } else {
      BulkLeftUpdate(batch[1..], i - 1, stage);
      assert after[1..] == batch[1..][i - 1 := batch[i].(stage := stage)];
    }
  }

  lemma {:induction false} BudgetsUpdate(workers: seq<Worker>, w: nat, worker: Worker)
    requires w < |workers|
    ensures Budgets(workers[w := worker]) == Budgets(workers) - Budget(workers[w]) + Budget(worker)
  {
    var after := workers[w := worker];
    if w == 0 {
      assert after[1..] == workers[1..];
    } else {
      BudgetsUpdate(workers[1..], w - 1, worker);
      assert after[1..] == workers[1..][w - 1 := worker];
    }
  }

  lemma {:induction false} BudgetsAreSmall(workers: seq<Worker>)
    requires forall w :: 0 <= w < |workers| ==> Budget(workers[w]) <= BATCH_SIZE
    ensures Budgets(workers) <= BATCH_SIZE * |workers|
  {
    if workers != [] {
      BudgetsAreSmall(workers[1..]);
    }
  }

  lemma {:induction false} NoBudgets(workers: seq<Worker>)
    requires forall w :: 0 <= w < |workers| ==> workers[w].Idle?
    ensures Budgets(workers) == 0
  {
    if workers != [] {
      NoBudgets(workers[1..]);
    }
  }

  // ----- the invariant -----------------------------------------------------

  /** Batches are small, and know their messages' priorities. */
  ghost predicate KnowsPriorities(s: State) {
    && (forall w :: 0 <= w < |s.workers| && s.workers[w].Delivering? ==> |s.workers[w].batch| <= BATCH_SIZE)
    && (forall w: nat, i: nat :: HasSlot(s, w, i) ==>
         SlotOf(s, w, i).id in s.rows && s.rows[SlotOf(s, w, i).id].priority == SlotOf(s, w, i).priority)
  }

  predicate BulkSent(row: Row) {
    row.status.Sent? && row.priority > SECURITY
  }

  /** What was sent and what may still be sent fit the bound together. */
  ghost predicate WithinCap(s: State) {
    && (s.cap == 0 ==> Budgets(s.workers) == 0 && forall id :: id in s.rows ==> !BulkSent(s.rows[id]))
    && (s.cap >= 1 ==> Recent(s) + Budgets(s.workers) <= Bound(s))
  }

  ghost predicate Inv(s: State) {
    Clocked(s) && KnowsPriorities(s) && WithinCap(s)
  }

  lemma InitHasInv(s: State)
    requires Init(s)
    ensures Inv(s)
  {
    NoBudgets(s.workers);
    assert SentSince(s.rows, s.clock - HOUR) == {};
  }

  lemma RowsKeepPriorities(s: State, step: Step)
    requires Enabled(s, step)
    ensures forall id :: id in s.rows ==>
      id in Apply(s, step).rows && Apply(s, step).rows[id].priority == s.rows[id].priority
  {}

  lemma StepKeepsPriorities(s: State, step: Step)
    requires KnowsPriorities(s) && Enabled(s, step)
    ensures KnowsPriorities(Apply(s, step))
  {
    var s' := Apply(s, step);
    RowsKeepPriorities(s, step);
    if step.ClaimBatch? {
      BatchIsSmall(s, step.w, step.skipped, step.order);
    }
    forall w: nat, i: nat | HasSlot(s', w, i)
      ensures SlotOf(s', w, i).id in s'.rows && s'.rows[SlotOf(s', w, i).id].priority == SlotOf(s', w, i).priority
    {
      if HasSlot(s, w, i) && !(step.ClaimBatch? && step.w == w) {
        assert SlotOf(s', w, i).id == SlotOf(s, w, i).id;
      }
    }
  }

  /** A claim past the cap takes security messages only, so it has no budget;
      any other claim has the 25 its count allowed. */
  lemma ClaimBudget(s: State, w: nat, skipped: set<Id>, order: seq<Id>)
    requires Enabled(s, ClaimBatch(w, skipped, order))
    ensures Budget(Apply(s, ClaimBatch(w, skipped, order)).workers[w]) <= Budget(s.workers[w])
  {
    var batch := Apply(s, ClaimBatch(w, skipped, order)).workers[w].batch;
    BatchIsSmall(s, w, skipped, order);
    BulkLeftIsSmall(batch);
    if s.workers[w].maxPriority <= SECURITY {
      forall i | 0 <= i < |batch| ensures batch[i].priority <= SECURITY {
        assert order[i] in EligibleIds(s.rows, s.workers[w].now, s.workers[w].maxPriority, skipped);
      }
    }
  }

  /** Writing one outcome adds at most its own message to the recent ones, and
      takes it off the worker's budget. */
  lemma WriteMovesBudget(s: State, w: nat, i: nat, sentAt: Time)
    requires KnowsPriorities(s) && Enabled(s, WriteOutcome(w, i, sentAt))
    ensures var s' := Apply(s, WriteOutcome(w, i, sentAt));
            Recent(s') + Budget(s'.workers[w]) <= Recent(s) + Budget(s.workers[w])
  {
    var s' := Apply(s, WriteOutcome(w, i, sentAt));
    var slot := SlotOf(s, w, i);
    BulkLeftUpdate(s.workers[w].batch, i, Over);
    var before := SentSince(s.rows, s.clock - HOUR);
    var after := SentSince(s'.rows, s'.clock - HOUR);
    if slot.priority > SECURITY {
      assert after <= before + {slot.id};
      SubsetSize(after, before + {slot.id});
    } else {
      assert after <= before;
      SubsetSize(after, before);
    }
  }

  /** The other steps send nothing, and give no worker but a counting one more
      budget. */
  lemma QuietStep(s: State, step: Step)
    requires Enabled(s, step) && !step.WriteOutcome?
    ensures Recent(Apply(s, step)) <= Recent(s)
  {
    var s' := Apply(s, step);
    var after := SentSince(s'.rows, s'.clock - HOUR);
    assert after <= SentSince(s.rows, s.clock - HOUR) by {
      forall id | id in after ensures id in s.rows && CountsSince(s.rows[id], s.clock - HOUR) {
      }
    }
    SubsetSize(after, SentSince(s.rows, s.clock - HOUR));
  }

  lemma BudgetsFit(s: State)
    requires KnowsPriorities(s)
    ensures Budgets(s.workers) <= BATCH_SIZE * |s.workers|
  {
    forall w | 0 <= w < |s.workers| ensures Budget(s.workers[w]) <= BATCH_SIZE {
      if s.workers[w].Delivering? {
        BulkLeftIsSmall(s.workers[w].batch);
      }
    }
    BudgetsAreSmall(s.workers);
  }

  /** The count looks back from a clock reading no later than the present, so
      it misses no message of the last hour. */
  lemma CountSeesTheHour(s: State, now: Time)
    requires now <= s.clock
    ensures Recent(s) <= |SentSince(s.rows, now - HOUR)|
  {
    SubsetSize(SentSince(s.rows, s.clock - HOUR), SentSince(s.rows, now - HOUR));
  }

  function Acting(step: Step): Option<nat> {
    match step
    case Enqueue(_, _, _, _, _) => None
    case Tick(_) => None
    case _ => Some(step.w)
  }

  lemma BudgetOfStep(s: State, step: Step)
    requires Enabled(s, step) && Acting(step).Some?
    ensures var w := Acting(step).value; var s' := Apply(s, step);
      && w < |s.workers| && s'.workers == s.workers[w := s'.workers[w]]
      && Budgets(s'.workers) == Budgets(s.workers) - Budget(s.workers[w]) + Budget(s'.workers[w])
      && (!step.CountSent? && !step.WriteOutcome? ==> Budget(s'.workers[w]) <= Budget(s.workers[w]))
  {
    var w, s' := Acting(step).value, Apply(s, step);
    BudgetsUpdate(s.workers, w, s'.workers[w]);
    match step
    case ClaimBatch(_, skipped, order) => ClaimBudget(s, w, skipped, order);
    case Start(_, i) => BulkLeftUpdate(s.workers[w].batch, i, s'.workers[w].batch[i].stage);
    case Decide(_, i, _) => BulkLeftUpdate(s.workers[w].batch, i, s'.workers[w].batch[i].stage);
    case LoseOutcome(_, i) => BulkLeftUpdate(s.workers[w].batch, i, Over);
    case _ =>
  }

  lemma StepKeepsCap(s: State, step: Step)
    requires Inv(s) && Enabled(s, step)
    ensures WithinCap(Apply(s, step))
  {
    var s' := Apply(s, step);
    if step.WriteOutcome? {
      WriteKeepsCap(s, step.w, step.i, step.sentAt);
    } else {
      StepKeepsPriorities(s, step);
      BudgetsFit(s');
      if Acting(step).Some? {
        BudgetOfStep(s, step);
      }
      if step.CountSent? {
        CountSeesTheHour(s, s.workers[step.w].now);
      }
      QuietStep(s, step);
    }
  }

  lemma WriteKeepsCap(s: State, w: nat, i: nat, sentAt: Time)
    requires Inv(s) && Enabled(s, WriteOutcome(w, i, sentAt))
    ensures WithinCap(Apply(s, WriteOutcome(w, i, sentAt)))
  {
    StepKeepsPriorities(s, WriteOutcome(w, i, sentAt));
    BudgetsFit(Apply(s, WriteOutcome(w, i, sentAt)));
    BudgetOfStep(s, WriteOutcome(w, i, sentAt));
    WriteMovesBudget(s, w, i, sentAt);
    BulkLeftUpdate(s.workers[w].batch, i, Over);
    BudgetsContain(s.workers, w);
  }

  lemma {:induction false} BudgetsContain(workers: seq<Worker>, w: nat)
    requires w < |workers|
    ensures Budget(workers[w]) <= Budgets(workers)
  {
    if w > 0 {
      BudgetsContain(workers[1..], w - 1);
    }
  }

  lemma {:induction false} RunKeepsInv(trace: seq<State>, steps: seq<Step>, k: nat)
    requires IsRun(trace, steps) && k < |trace|
    ensures Inv(trace[k]) && trace[k].cap == trace[0].cap && |trace[k].workers| == |trace[0].workers|
  {
    if k == 0 {
      InitHasInv(trace[0]);
    } else {
      RunKeepsInv(trace, steps, k - 1);
      StepKeepsClocked(trace[k - 1], steps[k - 1]);
      StepKeepsPriorities(trace[k - 1], steps[k - 1]);
      StepKeepsCap(trace[k - 1], steps[k - 1]);
    }
  }

  /** The messages sent within the last hour, codes and security notices aside. */
  function SentInTheHour(s: State): set<Id> {
    set id | id in s.rows && s.rows[id].status == Sent && s.rows[id].priority > 0
             && s.rows[id].sentAt.Some? && s.rows[id].sentAt.value > s.clock - 3600 * SECOND
  }

  lemma SameHour(s: State)
    ensures |SentInTheHour(s)| == Recent(s)
  {
    assert SentInTheHour(s) == SentSince(s.rows, s.clock - HOUR);
  }

  /** Main result: at every moment of every run, the non-security messages
      sent in the last hour number at most `cap - 1` plus a full batch for each
      worker; with a cap of zero, none was ever sent. No assumption is made on
      how long a worker takes or when it dies. */
  lemma HourlyCapHolds(trace: seq<State>, steps: seq<Step>, k: nat)
    requires IsRun(trace, steps) && k < |trace|
    ensures trace[0].cap >= 1 ==>
      |SentInTheHour(trace[k])| <= trace[0].cap - 1 + 25 * |trace[0].workers|
    ensures trace[0].cap == 0 ==>
      forall id :: id in trace[k].rows && trace[k].rows[id].status.Sent? ==> trace[k].rows[id].priority <= 0
  {
    RunKeepsInv(trace, steps, k);
    SameHour(trace[k]);
  }
}

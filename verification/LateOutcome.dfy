/**
 How old a claim may get before finality is lost: the outcome statements match on
 the id alone, so a worker whose claim was swept meanwhile still writes over what
 another worker recorded.
 */
module LateOutcome {
  import opened Options
  import opened OutboxTable
  import opened WorkerProtocol
  import ClaimSafety

  /** No claim is resolved, or still held, more than `age` after its batch began. */
  ghost predicate AgedAtMost(trace: seq<State>, age: Time) {
    forall k, w: nat, i: nat :: 0 <= k < |trace| && Live(trace[k], w, i) ==>
      trace[k].clock <= trace[k].workers[w].now + age
  }

  /** Rows that reached a final state never change. */
  ghost predicate KeepsFinal(trace: seq<State>) {
    forall j: nat, k: nat, id: Id :: 0 <= j <= k < |trace| && id in trace[j].rows && Terminal(trace[j].rows[id].status) ==>
      id in trace[k].rows && trace[k].rows[id] == trace[j].rows[id]
  }

  ghost predicate AlwaysKeepsFinal(age: Time) {
    forall trace: seq<State>, steps: seq<Step> :: IsRun(trace, steps) && AgedAtMost(trace, age) ==> KeepsFinal(trace)
  }

  // ----- building a run ----------------------------------------------------

  const TEMPLATE := "welcome"

  function RowIs(status: Status, attempts: int, lockedAt: Option<Time>): Row {
    Row(status, 3, attempts, 0, lockedAt, None, TEMPLATE, "{x}")
  }

  /** Between zero and `late`, as are the workers' readings of the clock. */
  predicate InTime(s: State, late: Time) {
    0 <= s.clock <= late && forall w :: 0 <= w < |s.workers| && !s.workers[w].Idle? ==> s.workers[w].now >= 0
  }

  lemma StepInTime(s: State, step: Step, late: Time)
    requires InTime(s, late) && Enabled(s, step) && (step.Tick? ==> step.clock <= late)
    ensures InTime(Apply(s, step), late)
  {}

  /** A run of two workers over the one row of the example, up to time `late`. */
  datatype Example = Example(trace: seq<State>, steps: seq<Step>, late: Time) {
    ghost predicate Ok() {
      IsRun(trace, steps) && forall k :: 0 <= k < |trace| ==> InTime(trace[k], late)
    }

    function Last(): State
      requires trace != []
    {
      trace[|trace| - 1]
    }

    function Then(step: Step): Example
      requires trace != [] && Enabled(Last(), step)
    {
      Example(trace + [Apply(Last(), step)], steps + [step], late)
    }

    lemma ThenIsOk(step: Step)
      requires Ok() && Enabled(Last(), step) && (step.Tick? ==> step.clock <= late)
      ensures Then(step).Ok() && Then(step).Last() == Apply(Last(), step)
    {
      StepInTime(Last(), step, late);
    }
  }

  lemma Sweeps(x: Example, w: nat) returns (swept: Example)
    requires x.Ok() && |x.Last().workers| == 2 && w < 2 && x.Last().workers[w].Idle?
    ensures swept.Ok() && swept.late == x.late
    ensures swept.Last().clock == x.Last().clock && swept.Last().cap == x.Last().cap
    ensures swept.Last().rows == Sweep(x.Last().rows, x.Last().clock)
    ensures swept.Last().workers == x.Last().workers[w := Swept(x.Last().clock)]
  {
    x.ThenIsOk(Begin(w));
    swept := x.Then(Begin(w));
    swept.ThenIsOk(SweepStale(w));
    swept := swept.Then(SweepStale(w));
  }

  /** Worker `w` begins a batch: it sweeps, and finds the cap not reached. */
  lemma Counts(x: Example, w: nat) returns (counted: Example)
    requires x.Ok() && |x.Last().workers| == 2 && w < 2 && x.Last().workers[w].Idle? && x.Last().cap == 500
    requires x.Last().rows.Keys == {0} && !x.Last().rows[0].status.Sent?
    ensures counted.Ok() && counted.late == x.late
    ensures counted.Last().clock == x.Last().clock && counted.Last().cap == 500
    ensures counted.Last().rows == Sweep(x.Last().rows, x.Last().clock)
    ensures counted.Last().workers == x.Last().workers[w := Counted(x.Last().clock, ANY_PRIORITY)]
  {
    var swept := Sweeps(x, w);
    swept.ThenIsOk(CountSent(w));
    counted := swept.Then(CountSent(w));
    assert SentSince(swept.Last().rows, x.Last().clock - HOUR) == {};
  }

  /** Worker `w` claims the only row, which is due, and starts to deliver it. */
  lemma Claims(x: Example, w: nat) returns (x': Example)
    requires x.Ok() && |x.Last().workers| == 2 && w < 2 && x.Last().workers[w].Idle? && x.Last().cap == 500
    requires x.Last().rows.Keys == {0} && !x.Last().rows[0].status.Sent?
    requires Eligible(Sweep(x.Last().rows, x.Last().clock)[0], x.Last().clock, ANY_PRIORITY)
    ensures x'.Ok() && x'.late == x.late && x'.Last().clock == x.Last().clock && x'.Last().cap == 500
    ensures x'.Last().rows.Keys == {0}
    ensures x'.Last().rows[0] == x.Last().rows[0].(
      status := Sending, lockedAt := Some(x.Last().clock), attempts := x.Last().rows[0].attempts + 1)
    ensures HasSlot(x'.Last(), w, 0) && |x'.Last().workers[w].batch| == 1
    ensures SlotOf(x'.Last(), w, 0) == Slot(0, x.Last().rows[0].template, x'.Last().rows[0].attempts,
                                            x.Last().rows[0].priority, Running(x.Last().clock))
    ensures x'.Last().workers == x.Last().workers[w := x'.Last().workers[w]]
  {
    var counted := Counts(x, w);
    x' := Takes(counted, w);
    x'.ThenIsOk(Start(w, 0));
    x' := x'.Then(Start(w, 0));
  }

  lemma Takes(x: Example, w: nat) returns (x': Example)
    requires x.Ok() && |x.Last().workers| == 2 && w < 2
    requires x.Last().workers[w] == Counted(x.Last().clock, ANY_PRIORITY)
    requires x.Last().rows.Keys == {0} && Eligible(x.Last().rows[0], x.Last().clock, ANY_PRIORITY)
    ensures x'.Ok() && x'.late == x.late && x'.Last().clock == x.Last().clock && x'.Last().cap == x.Last().cap
    ensures x'.Last().rows == map[0 := x.Last().rows[0].(
      status := Sending, lockedAt := Some(x.Last().clock), attempts := x.Last().rows[0].attempts + 1)]
    ensures HasSlot(x'.Last(), w, 0) && |x'.Last().workers[w].batch| == 1
    ensures SlotOf(x'.Last(), w, 0) == Slot(0, x.Last().rows[0].template, x'.Last().rows[0].attempts,
                                            x.Last().rows[0].priority, Waiting)
    ensures x'.Last().workers == x.Last().workers[w := x'.Last().workers[w]]
  {
    assert EligibleIds(x.Last().rows, x.Last().clock, ANY_PRIORITY, {}) == {0};
    assert Ids([0]) == {0};
    x.ThenIsOk(ClaimBatch(w, {}, [0]));
    x' := x.Then(ClaimBatch(w, {}, [0]));
  }

  lemma Queued(late: Time) returns (x: Example)
    requires late >= 0
    ensures x.Ok() && x.late == late && x.Last().workers == [Idle, Idle] && x.Last().cap == 500 && x.Last().clock == 0
    ensures x.Last().rows == map[0 := RowIs(Pending, 0, None)]
  {
    var empty := Example([State(map[], map[], map[], [Idle, Idle], 0, 500)], [], late);
    var enqueue := Enqueue(0, TEMPLATE, false, "{x}", 0);
    empty.ThenIsOk(enqueue);
    x := empty.Then(enqueue);
  }

  /** The first worker fails to deliver, and stalls before recording it. */
  lemma Stalls(late: Time) returns (x: Example)
    requires late >= 0
    ensures x.Ok() && x.late == late && |x.Last().workers| == 2 && x.Last().workers[1].Idle? && x.Last().cap == 500
    ensures x.Last().clock == late && x.Last().rows == map[0 := RowIs(Sending, 1, Some(0))]
    ensures HasSlot(x.Last(), 0, 0) && SlotOf(x.Last(), 0, 0).id == 0
    ensures SlotOf(x.Last(), 0, 0).stage == Decided(0, Retry(Backoff(1)))
  {
    x := Queued(late);
    x := Claims(x, 0);
    x := Fails(x);
    x.ThenIsOk(Tick(late));
    x := x.Then(Tick(late));
  }

  lemma Fails(x: Example) returns (x': Example)
    requires x.Ok() && HasSlot(x.Last(), 0, 0) && |x.Last().workers| == 2 && x.Last().clock == 0
    requires SlotOf(x.Last(), 0, 0) == Slot(0, TEMPLATE, 1, 3, Running(0))
    ensures x'.Ok() && x'.late == x.late && x'.Last().clock == 0 && x'.Last().cap == x.Last().cap
    ensures x'.Last().rows == x.Last().rows && |x'.Last().workers| == 2 && x'.Last().workers[1] == x.Last().workers[1]
    ensures HasSlot(x'.Last(), 0, 0) && SlotOf(x'.Last(), 0, 0).id == 0
    ensures SlotOf(x'.Last(), 0, 0).stage == Decided(0, Retry(Backoff(1)))
  {
    x.ThenIsOk(Decide(0, 0, Refused(false)));
    x' := x.Then(Decide(0, 0, Refused(false)));
  }

  /** The second worker delivers, and records the message as sent. */
  lemma Sends(x: Example) returns (x': Example)
    requires x.Ok() && HasSlot(x.Last(), 1, 0) && x.Last().rows.Keys == {0} && x.Last().clock == x.late
    requires SlotOf(x.Last(), 1, 0).id == 0 && SlotOf(x.Last(), 1, 0).stage.Running?
    requires HasSlot(x.Last(), 0, 0) && SlotOf(x.Last(), 0, 0).id == 0
    requires SlotOf(x.Last(), 0, 0).stage == Decided(0, Retry(Backoff(1)))
    ensures x'.Ok() && x'.late == x.late && x'.Last().rows.Keys == {0} && x'.Last().rows[0].status.Sent?
    ensures x'.Last().clock == x.late && HasSlot(x'.Last(), 0, 0) && SlotOf(x'.Last(), 0, 0) == SlotOf(x.Last(), 0, 0)
  {
    x.ThenIsOk(Decide(1, 0, Accepted));
    x' := x.Then(Decide(1, 0, Accepted));
    x'.ThenIsOk(WriteOutcome(1, 0, x.late));
    x' := x'.Then(WriteOutcome(1, 0, x.late));
  }

  lemma Retries(x: Example) returns (x': Example)
    requires x.Ok() && x.Last().rows.Keys == {0} && x.Last().rows[0].status.Sent? && x.Last().clock == x.late
    requires HasSlot(x.Last(), 0, 0) && SlotOf(x.Last(), 0, 0).id == 0
    requires SlotOf(x.Last(), 0, 0).stage == Decided(0, Retry(Backoff(1)))
    ensures x'.Ok() && x'.late == x.late && |x'.trace| == |x.trace| + 1 && x.trace <= x'.trace
    ensures x'.Last().rows.Keys == {0} && x'.Last().rows[0].status.Pending?
  {
    x.ThenIsOk(WriteOutcome(0, 0, x.late));
    x' := x.Then(WriteOutcome(0, 0, x.late));
  }

  /** One claim left unresolved for longer than its lock lasts is enough: in this
      run a message recorded as sent goes back to the queue. */
  lemma LateRetryUndoesSent(late: Time) returns (trace: seq<State>, steps: seq<Step>, k: nat)
    requires late > STALE_LOCK
    ensures IsRun(trace, steps) && AgedAtMost(trace, late)
    ensures k + 1 < |trace| && 0 in trace[k].rows && 0 in trace[k + 1].rows
    ensures trace[k].rows[0].status.Sent? && trace[k + 1].rows[0].status.Pending?
  {
    var x := Stalls(late);
    x := Claims(x, 1);
    x := Sends(x);
    k := |x.trace| - 1;
    var retried := Retries(x);
    assert retried.trace[k] == x.trace[k];
    trace, steps := retried.trace, retried.steps;
    forall n, w: nat, i: nat | 0 <= n < |trace| && Live(trace[n], w, i)
      ensures trace[n].clock <= trace[n].workers[w].now + late
    {
      assert InTime(trace[n], late);
    }
  }

  // ----- main result -------------------------------------------------------

  lemma TimelyKeepsFinal(trace: seq<State>, steps: seq<Step>)
    requires IsRun(trace, steps) && IsTimely(trace)
    ensures KeepsFinal(trace)
  {
    forall j: nat, k: nat, id: Id | 0 <= j <= k < |trace| && id in trace[j].rows && Terminal(trace[j].rows[id].status)
      ensures id in trace[k].rows && trace[k].rows[id] == trace[j].rows[id]
    {
      ClaimSafety.FinalStatesAreFinal(trace, steps, j, k, id);
    }
  }

  /** Final states are final in every run whose claims get no older than `age`, if
      and only if that is no more than the ten minutes of the lock. */
  lemma FinalityNeedsTheLock(age: Time)
    ensures AlwaysKeepsFinal(age) <==> age <= 600 * SECOND
  {
    if age <= STALE_LOCK {
      forall trace: seq<State>, steps: seq<Step> | IsRun(trace, steps) && AgedAtMost(trace, age) ensures KeepsFinal(trace) {
        assert IsTimely(trace);
        TimelyKeepsFinal(trace, steps);
      }
    } else {
      var trace, steps, k := LateRetryUndoesSent(age);
      assert trace[k + 1].rows[0] != trace[k].rows[0];
      assert !KeepsFinal(trace);
    }
  }
}

/**
 The ordered window of four deliveries. A batch whose deliveries each take at
 most `d` is over within seven times that, which is what keeps its claims from
 being swept.
 */
module DeliveryWindow {
  import opened OutboxTable
  import opened WorkerProtocol
  import ClaimSafety

  // ----- the schedule of one batch -----------------------------------------

  /** When message `i` is done, if message `j` takes `durations[j]`: the first
      four start at once, each later one when all those at least four places
      before it are done. */
  function DoneAt(durations: seq<nat>, i: nat): nat
    requires i < |durations|
    decreases i, 0
  {
    (if i < SEND_CONCURRENCY then 0 else AllDoneAt(durations, i - SEND_CONCURRENCY)) + durations[i]
  }

  /** When messages 0 to `i` are all done. */
  function AllDoneAt(durations: seq<nat>, i: nat): nat
    requires i < |durations|
    decreases i, 1
  {
    var done := DoneAt(durations, i);
    if i == 0 || AllDoneAt(durations, i - 1) < done then done else AllDoneAt(durations, i - 1)
  }

  /** How long the rounds of four before message `i` take, at `d` each. */
  function Rounds(i: nat, d: nat): nat {
    if i < SEND_CONCURRENCY then 0 else Rounds(i - SEND_CONCURRENCY, d) + d
  }

  lemma {:induction false} RoundsGrow(i: nat, j: nat, d: nat)
    requires i <= j
    ensures Rounds(i, d) <= Rounds(j, d)
    ensures i + SEND_CONCURRENCY <= j ==> Rounds(i, d) + d <= Rounds(j, d)
  {
    if i >= SEND_CONCURRENCY {
      RoundsGrow(i - SEND_CONCURRENCY, j - SEND_CONCURRENCY, d);
    } else if i + SEND_CONCURRENCY <= j {
      assert 0 <= Rounds(j - SEND_CONCURRENCY, d);
    }
  }

  lemma {:induction false} RoundsAre(i: nat, d: nat)
    ensures Rounds(i, d) == (i / SEND_CONCURRENCY) * d
  {
    if i >= SEND_CONCURRENCY {
      RoundsAre(i - SEND_CONCURRENCY, d);
      assert i / SEND_CONCURRENCY == (i - SEND_CONCURRENCY) / SEND_CONCURRENCY + 1;
    }
  }

  lemma {:induction false} DoneWithin(durations: seq<nat>, i: nat, d: nat)
    requires i < |durations| && forall j :: 0 <= j < |durations| ==> durations[j] <= d
    ensures DoneAt(durations, i) <= AllDoneAt(durations, i) <= Rounds(i, d) + d == (i / SEND_CONCURRENCY + 1) * d
    decreases i
  {
    RoundsAre(i, d);
    if i >= SEND_CONCURRENCY {
      DoneWithin(durations, i - SEND_CONCURRENCY, d);
      RoundsGrow(i - SEND_CONCURRENCY, i, d);
    }
    if i > 0 {
      DoneWithin(durations, i - 1, d);
      RoundsGrow(i - 1, i, d);
    }
  }

  lemma {:induction false} DoneExactly(durations: seq<nat>, i: nat, d: nat)
    requires i < |durations| && forall j :: 0 <= j < |durations| ==> durations[j] == d
    ensures DoneAt(durations, i) == AllDoneAt(durations, i) == Rounds(i, d) + d == (i / SEND_CONCURRENCY + 1) * d
    decreases i
  {
    RoundsAre(i, d);
    if i >= SEND_CONCURRENCY {
      DoneExactly(durations, i - SEND_CONCURRENCY, d);
    }
    if i > 0 {
      DoneExactly(durations, i - 1, d);
      RoundsGrow(i - 1, i, d);
    }
  }

  /** Whatever its deliveries take up to `d`, the whole batch is done by `limit`. */
  ghost predicate AlwaysDoneBy(d: nat, limit: nat) {
    forall durations: seq<nat>, i: nat ::
      i < |durations| <= BATCH_SIZE && (forall j :: 0 <= j < |durations| ==> durations[j] <= d) ==>
      DoneAt(durations, i) <= limit
  }

  lemma SixRounds(d: nat)
    ensures Rounds(24, d) == 6 * d
  {
    RoundsAre(24, d);
  }

  lemma SevenAtMost(durations: seq<nat>, i: nat, d: nat)
    requires i < |durations| <= BATCH_SIZE && forall j :: 0 <= j < |durations| ==> durations[j] <= d
    ensures DoneAt(durations, i) <= 7 * d
  {
    DoneWithin(durations, i, d);
    RoundsGrow(i, 24, d);
    SixRounds(d);
  }

  lemma SevenForFull(d: nat) returns (full: seq<nat>)
    ensures |full| == BATCH_SIZE && (forall j :: 0 <= j < |full| ==> full[j] <= d) && DoneAt(full, 24) == 7 * d
  {
    full := seq(BATCH_SIZE, _ => d);
    DoneExactly(full, 24, d);
    SixRounds(d);
  }

  /** A batch is always done by `limit` exactly if seven deliveries fit in it. */
  lemma SevenRounds(d: nat, limit: nat)
    ensures AlwaysDoneBy(d, limit) <==> 7 * d <= limit
  {
    forall durations: seq<nat>, i: nat |
      i < |durations| <= BATCH_SIZE && forall j :: 0 <= j < |durations| ==> durations[j] <= d
      ensures DoneAt(durations, i) <= 7 * d
    {
      SevenAtMost(durations, i, d);
    }
    var full := SevenForFull(d);
    assert AlwaysDoneBy(d, limit) ==> DoneAt(full, 24) <= limit;
  }

  // ----- prompt runs of the protocol ---------------------------------------

  /** Time does not pass a delivery's `d`, nor while a message could start; and
      a batch is claimed at most `setup` after it began. */
  ghost predicate PromptStep(s: State, step: Step, setup: nat, d: nat) {
    match step
    case Tick(clock) =>
      forall w: nat, i: nat :: Live(s, w, i) ==>
        var stage := SlotOf(s, w, i).stage;
        if stage.Waiting? then !InWindow(s.workers[w].batch, i) else clock <= stage.startedAt + d
    case ClaimBatch(w, _, _) => w < |s.workers| && !s.workers[w].Idle? && s.clock <= s.workers[w].now + setup
    case _ => true
  }

  ghost predicate IsPrompt(trace: seq<State>, steps: seq<Step>, setup: nat, d: nat) {
    |trace| == |steps| + 1 && forall k :: 0 <= k < |steps| ==> PromptStep(trace[k], steps[k], setup, d)
  }

  /** Message `i` of a batch starts within its rounds, and ends `d` later. */
  predicate OnSchedule(worker: Worker, i: nat, clock: Time, d: nat)
    requires worker.Delivering? && i < |worker.batch|
  {
    match worker.batch[i].stage
    case Over => true
    case Waiting => clock <= worker.claimedAt + Rounds(i, d)
    case Running(startedAt) => startedAt <= worker.claimedAt + Rounds(i, d) && clock <= startedAt + d
    case Decided(startedAt, _) => startedAt <= worker.claimedAt + Rounds(i, d) && clock <= startedAt + d
  }

  ghost predicate Scheduled(s: State, setup: nat, d: nat) {
    && SetUp(s, setup)
    && (forall w: nat, i: nat :: Live(s, w, i) ==> OnSchedule(s.workers[w], i, s.clock, d))
  }

  predicate SetUp(s: State, setup: nat) {
    forall w :: 0 <= w < |s.workers| && s.workers[w].Delivering? ==>
      |s.workers[w].batch| <= BATCH_SIZE && s.workers[w].claimedAt <= s.workers[w].now + setup
  }

  lemma StepKeepsSetUp(s: State, step: Step, setup: nat, d: nat)
    requires SetUp(s, setup) && Enabled(s, step) && PromptStep(s, step, setup, d)
    ensures SetUp(Apply(s, step), setup)
  {
    if step.ClaimBatch? {
      BatchIsSmall(s, step.w, step.skipped, step.order);
    }
  }

  lemma {:induction false} FirstLive(batch: seq<Slot>, i: nat) returns (m: nat)
    requires i < |batch| && !batch[i].stage.Over?
    ensures m <= i && !batch[m].stage.Over? && forall j :: 0 <= j < m ==> batch[j].stage.Over?
  {
    m := 0;
    while batch[m].stage.Over?
      decreases i - m
      invariant m <= i && forall j :: 0 <= j < m ==> batch[j].stage.Over?
    {
      m := m + 1;
    }
  }

  lemma TickKeepsSchedule(s: State, clock: Time, setup: nat, d: nat)
    requires Scheduled(s, setup, d) && Enabled(s, Tick(clock)) && PromptStep(s, Tick(clock), setup, d)
    ensures Scheduled(Apply(s, Tick(clock)), setup, d)
  {
    var s' := Apply(s, Tick(clock));
    forall w: nat, i: nat | Live(s', w, i) ensures OnSchedule(s'.workers[w], i, clock, d) {
      assert Live(s, w, i);
      var batch := s.workers[w].batch;
      if batch[i].stage.Waiting? {
        var m := FirstLive(batch, i);
        assert Live(s, w, m);
        assert InWindow(batch, m);
        var j :| 0 <= j && j + SEND_CONCURRENCY <= i && !batch[j].stage.Over?;
        assert m <= j;
        RoundsGrow(m, i, d);
      }
    }
  }

  lemma StepKeepsSchedule(s: State, step: Step, setup: nat, d: nat)
    requires Clocked(s) && Scheduled(s, setup, d) && Enabled(s, step) && PromptStep(s, step, setup, d)
    ensures Scheduled(Apply(s, step), setup, d)
  {
    var s' := Apply(s, step);
    if step.Tick? {
      TickKeepsSchedule(s, step.clock, setup, d);
    } else {
      StepKeepsSetUp(s, step, setup, d);
      forall w: nat, i: nat | Live(s', w, i) ensures OnSchedule(s'.workers[w], i, s'.clock, d) {
        assert Live(s, w, i) || (step.ClaimBatch? && step.w == w);
      }
    }
  }

  lemma {:induction false} RunKeepsSchedule(trace: seq<State>, steps: seq<Step>, setup: nat, d: nat, k: nat)
    requires IsRun(trace, steps) && IsPrompt(trace, steps, setup, d) && k < |trace|
    ensures Clocked(trace[k]) && Scheduled(trace[k], setup, d)
  {
    if k > 0 {
      RunKeepsSchedule(trace, steps, setup, d, k - 1);
      StepKeepsClocked(trace[k - 1], steps[k - 1]);
      StepKeepsSchedule(trace[k - 1], steps[k - 1], setup, d);
    }
  }

  /** When a batch is claimed within `setup` of its start and each delivery
      takes at most `d`, with `setup + 7d` within the ten minutes of a lock,
      every claim is resolved in time, by every worker, whatever the others
      do. */
  lemma PromptRunsAreTimely(trace: seq<State>, steps: seq<Step>, setup: nat, d: nat)
    requires IsRun(trace, steps) && IsPrompt(trace, steps, setup, d) && setup + 7 * d <= STALE_LOCK
    ensures IsTimely(trace)
  {
    RoundsAre(BATCH_SIZE - 1, d);
    forall k | 0 <= k < |trace| ensures Timely(trace[k]) {
      RunKeepsSchedule(trace, steps, setup, d, k);
      forall w: nat, i: nat | Live(trace[k], w, i) ensures trace[k].clock <= trace[k].workers[w].now + STALE_LOCK {
        assert OnSchedule(trace[k].workers[w], i, trace[k].clock, d);
        RoundsGrow(i, 24, d);
      }
    }
  }

  /** So no sweep of a prompt run takes a message that is still being sent. */
  lemma PromptRunsSweepNoLiveClaim(trace: seq<State>, steps: seq<Step>, setup: nat, d: nat, k: nat, w: nat, i: nat)
    requires IsRun(trace, steps) && IsPrompt(trace, steps, setup, d) && setup + 7 * d <= STALE_LOCK
    requires k < |steps| && steps[k].SweepStale? && Live(trace[k], w, i)
    ensures Live(trace[k + 1], w, i)
    ensures SlotOf(trace[k], w, i).id in trace[k].rows && SlotOf(trace[k], w, i).id in trace[k + 1].rows
    ensures trace[k + 1].rows[SlotOf(trace[k], w, i).id] == trace[k].rows[SlotOf(trace[k], w, i).id]
  {
    PromptRunsAreTimely(trace, steps, setup, d);
    ClaimSafety.RunKeepsInv(trace, steps, k);
    ClaimSafety.SweepSparesLiveClaims(trace[k], steps[k].w, w, i);
    assert ClaimSafety.SlotFits(trace[k], w, i);
  }
}

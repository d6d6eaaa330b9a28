/**
 How slow deliveries may be: a full batch takes seven of them one after another,
 and final states are final just when its set-up and seven deliveries fit the lock.
 */
module PromptFinality {
  import opened Options
  import opened OutboxTable
  import opened WorkerProtocol
  import opened FirstIds
  import opened LateOutcome
  import opened DeliveryWindow
  import Templates

  /** Final states are final in every run whose workers claim within `setup` and
      deliver within `d`. */
  ghost predicate AlwaysFinalIfPrompt(setup: nat, d: nat) {
    forall trace: seq<State>, steps: seq<Step> ::
      IsRun(trace, steps) && IsPrompt(trace, steps, setup, d) ==> KeepsFinal(trace)
  }

  // ----- a run as slow as can be -------------------------------------------

  /** A template that is sent whatever the cap. */
  const CODE := "reauth_code"

  function CodeRow(status: Status, lockedAt: Option<Time>, attempts: int): Row {
    Row(status, SECURITY, attempts, 0, lockedAt, None, CODE, "{x}")
  }

  datatype Prompt = Prompt(trace: seq<State>, steps: seq<Step>, setup: nat, d: nat) {
    ghost predicate Ok() {
      IsRun(trace, steps) && IsPrompt(trace, steps, setup, d)
    }

    function Last(): State
      requires trace != []
    {
      trace[|trace| - 1]
    }

    function Then(step: Step): Prompt
      requires trace != [] && Enabled(Last(), step)
    {
      Prompt(trace + [Apply(Last(), step)], steps + [step], setup, d)
    }

    lemma ThenIsOk(step: Step)
      requires Ok() && Enabled(Last(), step) && PromptStep(Last(), step, setup, d)
      ensures Then(step).Ok() && Then(step).Last() == Apply(Last(), step)
    {}
  }

  function AllRows(n: nat, row: Row): Table {
    map id | id in Ids(Order(n)) :: row
  }

  lemma CodeIsSecurity()
    ensures Templates.PriorityOf(CODE, false) == SECURITY
  {
    assert Templates.IsCodeTemplate(CODE);
    Templates.CodesRankAsSecurity(CODE, false);
  }

  /** Twenty-five codes are queued. */
  lemma Queues(setup: nat, d: nat, n: nat) returns (x: Prompt)
    ensures x.Ok() && x.setup == setup && x.d == d && x.Last().clock == 0 && x.Last().workers == [Idle, Idle]
    ensures x.Last().rows == AllRows(n, CodeRow(Pending, None, 0))
  {
    if n == 0 {
      x := Prompt([State(map[], map[], map[], [Idle, Idle], 0, 500)], [], setup, d);
    } else {
      x := Queues(setup, d, n - 1);
      CodeIsSecurity();
      OrderIds(n);
      OrderIds(n - 1);
      var enqueue := Enqueue(n - 1, CODE, false, "{x}", 0);
      x.ThenIsOk(enqueue);
      x := x.Then(enqueue);
    }
  }

  /** The first worker takes all `setup` to claim them. */
  lemma Counts(setup: nat, d: nat) returns (x: Prompt)
    ensures x.Ok() && x.setup == setup && x.d == d && x.Last().clock == setup
    ensures |x.Last().workers| == 2 && x.Last().workers[1] == Idle
    ensures x.Last().workers[0].Counted? && x.Last().workers[0].now == 0
    ensures x.Last().workers[0].maxPriority in {SECURITY, ANY_PRIORITY}
    ensures x.Last().rows == AllRows(BATCH_SIZE, CodeRow(Pending, None, 0))
  {
    x := Queues(setup, d, BATCH_SIZE);
    x.ThenIsOk(Begin(0));
    x := x.Then(Begin(0));
    x.ThenIsOk(Tick(setup));
    x := x.Then(Tick(setup));
    x.ThenIsOk(SweepStale(0));
    x := x.Then(SweepStale(0));
    x.ThenIsOk(CountSent(0));
    x := x.Then(CountSent(0));
  }

  /** Of the batch, `over` slots are done, the next `running` started at `at`, and
      the rest wait. */
  predicate BatchIs(batch: seq<Slot>, over: nat, running: nat, at: Time) {
    && |batch| == BATCH_SIZE
    && forall i :: 0 <= i < BATCH_SIZE ==>
         && batch[i].id == i && batch[i].attempts == 1 && batch[i].template == CODE
         && batch[i].stage == if i < over then Over else if i < over + running then Running(at) else Waiting
  }

  /** The rows of the done slots are sent, the others still claimed. */
  predicate RowsAre(t: Table, over: nat) {
    && t.Keys == Ids(Order(BATCH_SIZE))
    && forall id :: id in t ==>
         if id < over then t[id].status.Sent? else t[id] == CodeRow(Sending, Some(0), 1)
  }

  ghost predicate Underway(x: Prompt, over: nat, running: nat, at: Time) {
    && x.Ok() && |x.Last().workers| == 2 && x.Last().workers[1] == Idle
    && x.Last().workers[0].Delivering? && x.Last().workers[0].now == 0
    && BatchIs(x.Last().workers[0].batch, over, running, at)
    && RowsAre(x.Last().rows, over)
  }

  lemma AllSelected(t: Table, maxPriority: int)
    requires t == AllRows(BATCH_SIZE, CodeRow(Pending, None, 0)) && maxPriority in {SECURITY, ANY_PRIORITY}
    ensures Selected(t, 0, maxPriority, {}, Ids(Order(BATCH_SIZE))) && InDeliveryOrder(t, Order(BATCH_SIZE))
  {
    var order := Order(BATCH_SIZE);
    SizeOfDistinct(order);
    assert EligibleIds(t, 0, maxPriority, {}) == Ids(order);
  }

  lemma Claims(setup: nat, d: nat) returns (x: Prompt)
    ensures x.Ok() && x.setup == setup && x.d == d && x.Last().clock == setup
    ensures Underway(x, 0, 0, setup) && x.Last().workers[0].claimedAt == setup
  {
    x := Counts(setup, d);
    var order := Order(BATCH_SIZE);
    AllSelected(x.Last().rows, x.Last().workers[0].maxPriority);
    x.ThenIsOk(ClaimBatch(0, {}, order));
    x := x.Then(ClaimBatch(0, {}, order));
  }

  lemma StartNext(x: Prompt, over: nat, running: nat) returns (x': Prompt)
    requires x.Ok() && Underway(x, over, running, x.Last().clock) && running < 4 && over + running < BATCH_SIZE
    ensures Underway(x', over, running + 1, x.Last().clock)
    ensures x'.setup == x.setup && x'.d == x.d && x'.Last().clock == x.Last().clock
  {
    var i := over + running;
    x.ThenIsOk(Start(0, i));
    x' := x.Then(Start(0, i));
  }

  lemma SettleNext(x: Prompt, over: nat, running: nat, at: Time) returns (x': Prompt)
    requires Underway(x, over, running, at) && running > 0 && over + running <= BATCH_SIZE
    ensures Underway(x', over + 1, running - 1, at)
    ensures x'.setup == x.setup && x'.d == x.d && x'.Last().clock == x.Last().clock
  {
    x.ThenIsOk(Decide(0, over, Accepted));
    x' := x.Then(Decide(0, over, Accepted));
    var write := WriteOutcome(0, over, x'.Last().clock);
    x'.ThenIsOk(write);
    x' := x'.Then(write);
  }

  lemma StartAll(x: Prompt, over: nat, running: nat, all: nat) returns (x': Prompt)
    requires x.Ok() && Underway(x, over, running, x.Last().clock) && running <= all <= 4 && over + all <= BATCH_SIZE
    ensures Underway(x', over, all, x.Last().clock)
    ensures x'.setup == x.setup && x'.d == x.d && x'.Last().clock == x.Last().clock
    decreases all - running
  {
    x' := x;
    if running < all {
      x' := StartNext(x', over, running);
      x' := StartAll(x', over, running + 1, all);
    }
  }

  lemma SettleAll(x: Prompt, over: nat, running: nat, at: Time) returns (x': Prompt)
    requires Underway(x, over, running, at) && over + running <= BATCH_SIZE
    ensures Underway(x', over + running, 0, at)
    ensures x'.setup == x.setup && x'.d == x.d && x'.Last().clock == x.Last().clock
    decreases running
  {
    x' := x;
    if running > 0 {
      x' := SettleNext(x', over, running, at);
      x' := SettleAll(x', over + 1, running - 1, at);
    }
  }

  /** Time passes while a full window, or the last message, is being delivered. */
  lemma Waits(x: Prompt, over: nat, running: nat) returns (x': Prompt)
    requires x.Ok() && Underway(x, over, running, x.Last().clock) && x.Last().clock >= 0
    requires running == 4 || over + running == BATCH_SIZE
    ensures Underway(x', over, running, x.Last().clock)
    ensures x'.setup == x.setup && x'.d == x.d && x'.Last().clock == x.Last().clock + x.d
  {
    var tick := Tick(x.Last().clock + x.d);
    forall w: nat, i: nat | Live(x.Last(), w, i) ensures w == 0 && i >= over {
    }
    forall i | over + running <= i < BATCH_SIZE ensures !InWindow(x.Last().workers[0].batch, i) {
      assert !x.Last().workers[0].batch[i - 4].stage.Over?;
    }
    x.ThenIsOk(tick);
    x' := x.Then(tick);
  }

  lemma Restarts(x: Prompt, over: nat, at: Time, at': Time)
    requires Underway(x, over, 0, at)
    ensures Underway(x, over, 0, at')
  {}

  /** Six rounds of four, each as long as a delivery may be. */
  lemma Rounds(setup: nat, d: nat, r: nat) returns (x: Prompt)
    requires r <= 6
    ensures x.Ok() && Underway(x, 4 * r, 0, x.Last().clock) && x.setup == setup && x.d == d && x.Last().clock == setup + r * d
  {
    if r == 0 {
      x := Claims(setup, d);
    } else {
      x := Rounds(setup, d, r - 1);
      var at := x.Last().clock;
      x := StartAll(x, 4 * (r - 1), 0, 4);
      x := Waits(x, 4 * (r - 1), 4);
      x := SettleAll(x, 4 * (r - 1), 4, at);
      Restarts(x, 4 * r, at, x.Last().clock);
    }
  }

  /** The last message is refused after the seventh round; its row is still claimed. */
  lemma Fails(setup: nat, d: nat) returns (x: Prompt)
    ensures x.Ok() && x.setup == setup && x.d == d && x.Last().clock == setup + 7 * d
    ensures |x.Last().workers| == 2 && x.Last().workers[1] == Idle && RowsAre(x.Last().rows, 24)
    ensures HasSlot(x.Last(), 0, 24) && SlotOf(x.Last(), 0, 24).id == 24
    ensures SlotOf(x.Last(), 0, 24).stage.Decided? && SlotOf(x.Last(), 0, 24).stage.verdict.Retry?
  {
    x := Rounds(setup, d, 6);
    var at := x.Last().clock;
    x := StartNext(x, 24, 0);
    x := Waits(x, 24, 1);
    var decide := Decide(0, 24, Refused(false));
    x.ThenIsOk(decide);
    x := x.Then(decide);
  }

  /** The first worker holds the last message, refused and not recorded. */
  ghost predicate Holds(x: Prompt, late: Time) {
    && x.Ok() && x.Last().clock == late && |x.Last().workers| == 2
    && HasSlot(x.Last(), 0, 24) && SlotOf(x.Last(), 0, 24).id == 24
    && SlotOf(x.Last(), 0, 24).stage.Decided? && SlotOf(x.Last(), 0, 24).stage.verdict.Retry?
    && x.Last().rows.Keys == Ids(Order(BATCH_SIZE))
    && forall id :: id in x.Last().rows && id != 24 ==> x.Last().rows[id].status.Sent?
  }

  lemma FailedHolds(setup: nat, d: nat) returns (x: Prompt)
    ensures Holds(x, setup + 7 * d) && x.setup == setup && x.d == d
    ensures x.Last().workers[1] == Idle && 24 in x.Last().rows && x.Last().rows[24] == CodeRow(Sending, Some(0), 1)
  {
    x := Fails(setup, d);
    OrderIds(BATCH_SIZE);
  }

  /** The second worker sweeps the stale claim. */
  lemma SweepsIt(x: Prompt, late: Time) returns (x': Prompt)
    requires Holds(x, late) && late > STALE_LOCK
    requires x.Last().workers[1] == Idle && 24 in x.Last().rows && x.Last().rows[24] == CodeRow(Sending, Some(0), 1)
    ensures Holds(x', late) && x'.setup == x.setup && x'.d == x.d && 24 in x'.Last().rows
    ensures x'.Last().rows[24] == CodeRow(Pending, None, 1)
    ensures x'.Last().workers[1].Counted? && x'.Last().workers[1].now == late
    ensures x'.Last().workers[1].maxPriority in {SECURITY, ANY_PRIORITY}
  {
    x.ThenIsOk(Begin(1));
    x' := x.Then(Begin(1));
    x'.ThenIsOk(SweepStale(1));
    x' := x'.Then(SweepStale(1));
    x'.ThenIsOk(CountSent(1));
    x' := x'.Then(CountSent(1));
  }

  lemma TakesIt(x: Prompt, late: Time) returns (x': Prompt)
    requires Holds(x, late) && late >= 0 && 24 in x.Last().rows && x.Last().rows[24] == CodeRow(Pending, None, 1)
    requires x.Last().workers[1].Counted? && x.Last().workers[1].now == late
    requires x.Last().workers[1].maxPriority in {SECURITY, ANY_PRIORITY}
    ensures Holds(x', late) && x'.setup == x.setup && x'.d == x.d
    ensures HasSlot(x'.Last(), 1, 0) && SlotOf(x'.Last(), 1, 0).id == 24 && SlotOf(x'.Last(), 1, 0).stage.Running?
  {
    assert EligibleIds(x.Last().rows, late, x.Last().workers[1].maxPriority, {}) == {24};
    assert Ids([24]) == {24};
    x.ThenIsOk(ClaimBatch(1, {}, [24]));
    x' := x.Then(ClaimBatch(1, {}, [24]));
    x'.ThenIsOk(Start(1, 0));
    x' := x'.Then(Start(1, 0));
  }

  lemma SendsIt(x: Prompt, late: Time) returns (x': Prompt)
    requires Holds(x, late)
    requires HasSlot(x.Last(), 1, 0) && SlotOf(x.Last(), 1, 0).id == 24 && SlotOf(x.Last(), 1, 0).stage.Running?
    ensures Holds(x', late) && x'.setup == x.setup && x'.d == x.d
    ensures 24 in x'.Last().rows && x'.Last().rows[24].status.Sent?
  {
    OrderIds(BATCH_SIZE);
    x.ThenIsOk(Decide(1, 0, Accepted));
    x' := x.Then(Decide(1, 0, Accepted));
    x'.ThenIsOk(WriteOutcome(1, 0, late));
    x' := x'.Then(WriteOutcome(1, 0, late));
  }

  lemma RetriesIt(x: Prompt, late: Time) returns (x': Prompt)
    requires Holds(x, late) && 24 in x.Last().rows && x.Last().rows[24].status.Sent?
    ensures x'.Ok() && x'.setup == x.setup && x'.d == x.d && !KeepsFinal(x'.trace)
  {
    var write := WriteOutcome(0, 24, late);
    x.ThenIsOk(write);
    x' := x.Then(write);
    var k := |x.trace| - 1;
    assert x'.trace[k] == x.Last() && x'.trace[k + 1] == x'.Last();
    assert x'.Last().rows[24].status.Pending?;
    assert Terminal(x'.trace[k].rows[24].status) && x'.trace[k + 1].rows[24] != x'.trace[k].rows[24];
  }

  // ----- main result -------------------------------------------------------

  /** Final states are final in every run whose workers claim within `setup` and
      deliver within `d` each, if and only if the set-up and seven deliveries take
      no more than the ten minutes of the lock. */
  lemma FinalExactlyIfPrompt(setup: nat, d: nat)
    ensures AlwaysFinalIfPrompt(setup, d) <==> setup + 7 * d <= 600 * SECOND
  {
    if setup + 7 * d <= STALE_LOCK {
      forall trace: seq<State>, steps: seq<Step> | IsRun(trace, steps) && IsPrompt(trace, steps, setup, d)
        ensures KeepsFinal(trace)
      {
        PromptRunsAreTimely(trace, steps, setup, d);
        TimelyKeepsFinal(trace, steps);
      }
    } else {
      var late := setup + 7 * d;
      var x := FailedHolds(setup, d);
      x := SweepsIt(x, late);
      x := TakesIt(x, late);
      x := SendsIt(x, late);
      x := RetriesIt(x, late);
    }
  }
}

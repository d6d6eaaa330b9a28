/**
 How far the hourly cap can be overshot: a run in which every worker counts before
 any of them claims, and then sends a full batch.
 */
module HourlyOvershoot {
  import opened Options
  import opened OutboxTable
  import opened WorkerProtocol
  import opened FirstIds
  import HourlyCap

  /** Whatever the workers do, at most `bound` non-security messages were sent in the
      last hour. */
  ghost predicate NeverMoreThan(cap: nat, workers: nat, bound: nat) {
    forall trace: seq<State>, steps: seq<Step>, k: nat ::
      IsRun(trace, steps) && trace[0].cap == cap && |trace[0].workers| == workers && k < |trace| ==>
        |HourlyCap.SentInTheHour(trace[k])| <= bound
  }

  // ----- a run that can be taken further -----------------------------------

  datatype Run = Run(trace: seq<State>, steps: seq<Step>) {
    ghost predicate Ok() {
      IsRun(trace, steps) && trace[|trace| - 1].clock == 0
    }

    function Last(): State
      requires trace != []
    {
      trace[|trace| - 1]
    }

    function Then(step: Step): Run
      requires trace != [] && Enabled(Last(), step)
    {
      Run(trace + [Apply(Last(), step)], steps + [step])
    }

    lemma ThenIsOk(step: Step)
      requires Ok() && Enabled(Last(), step) && !step.Tick?
      ensures Then(step).Ok() && Then(step).Last() == Apply(Last(), step) && Then(step).Last().cap == Last().cap
    {}
  }

  const TEMPLATE := "welcome"
  const FRESH := Row(Pending, 3, 0, 0, None, None, TEMPLATE, "{x}")
  const CLAIMED := Row(Sending, 3, 1, 0, Some(0), None, TEMPLATE, "{x}")

  predicate BulkSent(row: Row) {
    row.status.Sent? && row.priority > SECURITY && row.sentAt == Some(0)
  }

  /** The rows are numbered from 0; the first `sent` are sent, the others are `rest`. */
  ghost predicate RowsAre(t: Table, sent: nat, all: nat, rest: Row) {
    && (forall id: Id :: id in t <==> id < all)
    && forall id: Id :: id in t ==> if id < sent then BulkSent(t[id]) else t[id] == rest
  }

  const READY := Counted(0, ANY_PRIORITY)

  lemma AllCounted(t: Table, n: nat, rest: Row)
    requires RowsAre(t, n, n, rest)
    ensures |SentSince(t, 0 - HOUR)| == n
  {
    OrderIds(n);
    SizeOfDistinct(Order(n));
    assert SentSince(t, 0 - HOUR) == Ids(Order(n));
  }

  // ----- one batch ---------------------------------------------------------

  lemma Queues(x: Run, n: nat, k: nat) returns (x': Run)
    requires x.Ok() && RowsAre(x.Last().rows, n, n, FRESH)
    ensures x'.Ok() && RowsAre(x'.Last().rows, n, n + k, FRESH)
    ensures x'.Last().workers == x.Last().workers && x'.Last().cap == x.Last().cap
  {
    x' := x;
    if k > 0 {
      x' := Queues(x, n, k - 1);
      var enqueue := Enqueue(n + k - 1, TEMPLATE, false, "{x}", 0);
      x'.ThenIsOk(enqueue);
      x' := x'.Then(enqueue);
    }
  }

  /** `k` ids from `n` on. */
  function From(n: nat, k: nat): (order: seq<Id>)
    ensures |order| == k && forall i :: 0 <= i < k ==> order[i] == n + i
  {
    seq(k, i requires 0 <= i < k => n + i)
  }

  lemma FromIds(n: nat, k: nat)
    ensures forall id: Id :: id in Ids(From(n, k)) <==> n <= id < n + k
    ensures |Ids(From(n, k))| == k
  {
    forall id: Id | n <= id < n + k ensures id in From(n, k) {
      assert From(n, k)[id - n] == id;
    }
    SizeOfDistinct(From(n, k));
  }

  lemma AllSelected(t: Table, n: nat, k: nat)
    requires RowsAre(t, n, n + k, FRESH) && k <= BATCH_SIZE
    ensures Selected(t, 0, ANY_PRIORITY, {}, Ids(From(n, k))) && InDeliveryOrder(t, From(n, k))
  {
    FromIds(n, k);
    assert EligibleIds(t, 0, ANY_PRIORITY, {}) == Ids(From(n, k));
  }

  /** A batch of the rows from `n` on, the first `over` of them sent. */
  predicate BatchIs(worker: Worker, n: nat, k: nat, over: nat) {
    && worker.Delivering? && |worker.batch| == k
    && forall i :: 0 <= i < k ==> worker.batch[i] == Slot(n + i, TEMPLATE, 1, 3, if i < over then Over else Waiting)
  }

  lemma Takes(x: Run, w: nat, n: nat, k: nat) returns (x': Run)
    requires x.Ok() && RowsAre(x.Last().rows, n, n + k, FRESH) && k <= BATCH_SIZE
    requires w < |x.Last().workers| && x.Last().workers[w] == READY
    ensures x'.Ok() && RowsAre(x'.Last().rows, n, n + k, CLAIMED) && x'.Last().cap == x.Last().cap
    ensures |x'.Last().workers| == |x.Last().workers| && BatchIs(x'.Last().workers[w], n, k, 0)
    ensures x'.Last().workers == x.Last().workers[w := x'.Last().workers[w]]
  {
    AllSelected(x.Last().rows, n, k);
    FromIds(n, k);
    var claim := ClaimBatch(w, {}, From(n, k));
    x.ThenIsOk(claim);
    x' := x.Then(claim);
  }

  /** The next message of a batch is accepted, and not yet recorded. */
  lemma Delivers(x: Run, w: nat, n: nat, k: nat, i: nat) returns (x': Run)
    requires x.Ok() && i < k && w < |x.Last().workers| && BatchIs(x.Last().workers[w], n, k, i)
    ensures x'.Ok() && x'.Last().rows == x.Last().rows && x'.Last().cap == x.Last().cap
    ensures |x'.Last().workers| == |x.Last().workers| && x.Last().workers[w].Delivering?
    ensures var (worker, verdict) := (x.Last().workers[w], Judge(TEMPLATE, 1, Accepted, 0));
      x'.Last().workers == x.Last().workers[w := worker.(
        batch := worker.batch[i := worker.batch[i].(stage := Decided(0, verdict))])]
  {
    x.ThenIsOk(Start(w, i));
    x' := x.Then(Start(w, i));
    x'.ThenIsOk(Decide(w, i, Accepted));
    x' := x'.Then(Decide(w, i, Accepted));
    var batch := x.Last().workers[w].batch;
    assert x'.Last().workers[w].batch == batch[i := batch[i].(stage := Decided(0, Judge(TEMPLATE, 1, Accepted, 0)))];
  }

  lemma SendsOne(x: Run, w: nat, n: nat, k: nat, i: nat) returns (x': Run)
    requires x.Ok() && RowsAre(x.Last().rows, n + i, n + k, CLAIMED) && i < k
    requires w < |x.Last().workers| && BatchIs(x.Last().workers[w], n, k, i)
    ensures x'.Ok() && RowsAre(x'.Last().rows, n + i + 1, n + k, CLAIMED) && x'.Last().cap == x.Last().cap
    ensures |x'.Last().workers| == |x.Last().workers| && BatchIs(x'.Last().workers[w], n, k, i + 1)
    ensures x'.Last().workers == x.Last().workers[w := x'.Last().workers[w]]
  {
    var mid := Delivers(x, w, n, k, i);
    mid.ThenIsOk(WriteOutcome(w, i, 0));
    x' := mid.Then(WriteOutcome(w, i, 0));
    assert x'.Last().rows == Record(mid.Last().rows, n + i, Judge(TEMPLATE, 1, Accepted, 0), 0);
  }

  lemma SendsRest(x: Run, w: nat, n: nat, k: nat, i: nat) returns (x': Run)
    requires x.Ok() && RowsAre(x.Last().rows, n + i, n + k, CLAIMED) && i <= k
    requires w < |x.Last().workers| && BatchIs(x.Last().workers[w], n, k, i)
    ensures x'.Ok() && RowsAre(x'.Last().rows, n + k, n + k, CLAIMED) && x'.Last().cap == x.Last().cap
    ensures |x'.Last().workers| == |x.Last().workers| && BatchIs(x'.Last().workers[w], n, k, k)
    ensures x'.Last().workers == x.Last().workers[w := x'.Last().workers[w]]
    decreases k - i
  {
    x' := x;
    if i < k {
      x' := SendsOne(x, w, n, k, i);
      x' := SendsRest(x', w, n, k, i + 1);
    }
  }

  /** A worker that has counted sends `k` messages queued since. */
  lemma SendsBatch(x: Run, w: nat, n: nat, k: nat) returns (x': Run)
    requires x.Ok() && RowsAre(x.Last().rows, n, n, FRESH) && k <= BATCH_SIZE
    requires w < |x.Last().workers| && x.Last().workers[w] == READY
    ensures x'.Ok() && RowsAre(x'.Last().rows, n + k, n + k, FRESH) && x'.Last().cap == x.Last().cap
    ensures |x'.Last().workers| == |x.Last().workers| && BatchIs(x'.Last().workers[w], n, k, k)
    ensures x'.Last().workers == x.Last().workers[w := x'.Last().workers[w]]
  {
    x' := Queues(x, n, k);
    x' := Takes(x', w, n, k);
    x' := SendsRest(x', w, n, k, 0);
  }

  // ----- the overshoot -----------------------------------------------------

  /** A worker finds the cap not reached. */
  lemma Counts(x: Run, w: nat, n: nat) returns (x': Run)
    requires x.Ok() && RowsAre(x.Last().rows, n, n, FRESH) && n < x.Last().cap
    requires w < |x.Last().workers| && x.Last().workers[w] == Idle
    ensures x'.Ok() && RowsAre(x'.Last().rows, n, n, FRESH) && x'.Last().cap == x.Last().cap
    ensures x'.Last().workers == x.Last().workers[w := READY]
  {
    x.ThenIsOk(Begin(w));
    x' := x.Then(Begin(w));
    x'.ThenIsOk(SweepStale(w));
    x' := x'.Then(SweepStale(w));
    AllCounted(x'.Last().rows, n, FRESH);
    x'.ThenIsOk(CountSent(w));
    x' := x'.Then(CountSent(w));
  }

  function Idles(n: nat): (workers: seq<Worker>)
    ensures |workers| == n && forall w :: 0 <= w < n ==> workers[w] == Idle
  {
    seq(n, _ => Idle)
  }

  /** The first worker sends `n` messages, one to a batch. */
  lemma FillsUp(cap: nat, workers: nat, n: nat) returns (x: Run)
    requires n < cap && workers > 0
    ensures x.Ok() && RowsAre(x.Last().rows, n, n, FRESH)
    ensures x.Last().cap == cap && x.Last().workers == Idles(workers)
  {
    if n == 0 {
      x := Run([State(map[], map[], map[], Idles(workers), 0, cap)], []);
    } else {
      x := FillsUp(cap, workers, n - 1);
      x := Counts(x, 0, n - 1);
      x := SendsBatch(x, 0, n - 1, 1);
      x.ThenIsOk(End(0));
      x := x.Then(End(0));
    }
  }

  /** The first `w` workers have counted, the others have not begun. */
  predicate HaveCounted(workers: seq<Worker>, w: nat) {
    forall v :: 0 <= v < |workers| ==> workers[v] == if v < w then READY else Idle
  }

  lemma AllCount(cap: nat, workers: nat, w: nat) returns (x: Run)
    requires cap > 0 && workers > 0 && w <= workers
    ensures x.Ok() && RowsAre(x.Last().rows, cap - 1, cap - 1, FRESH)
    ensures x.Last().cap == cap && |x.Last().workers| == workers && HaveCounted(x.Last().workers, w)
  {
    if w == 0 {
      x := FillsUp(cap, workers, cap - 1);
    } else {
      x := AllCount(cap, workers, w - 1);
      x := Counts(x, w - 1, cap - 1);
    }
  }

  lemma AllSend(cap: nat, workers: nat, w: nat) returns (x: Run)
    requires cap > 0 && workers > 0 && w <= workers
    ensures x.Ok() && RowsAre(x.Last().rows, cap - 1 + BATCH_SIZE * w, cap - 1 + BATCH_SIZE * w, FRESH)
    ensures x.Last().cap == cap && |x.Last().workers| == workers
    ensures forall v :: w <= v < workers ==> x.Last().workers[v] == READY
  {
    if w == 0 {
      x := AllCount(cap, workers, workers);
    } else {
      x := AllSend(cap, workers, w - 1);
      x := SendsBatch(x, w - 1, cap - 1 + BATCH_SIZE * (w - 1), BATCH_SIZE);
    }
  }

  // ----- main results ------------------------------------------------------

  /** The bound on what is sent in an hour is met. */
  lemma OvershootIsMet(cap: nat, workers: nat) returns (trace: seq<State>, steps: seq<Step>)
    requires cap >= 1 && workers >= 1
    ensures IsRun(trace, steps) && trace[0].cap == cap && |trace[0].workers| == workers
    ensures |HourlyCap.SentInTheHour(trace[|trace| - 1])| == cap - 1 + 25 * workers
  {
    var x := AllSend(cap, workers, workers);
    trace, steps := x.trace, x.steps;
    AllCounted(x.Last().rows, cap - 1 + BATCH_SIZE * workers, FRESH);
    HourlyCap.RunKeepsInv(trace, steps, |steps|);
    HourlyCap.SameHour(trace[|trace| - 1]);
  }

  /** So it is the least there is. */
  lemma OvershootExactly(cap: nat, workers: nat, bound: nat)
    requires cap >= 1 && workers >= 1
    ensures NeverMoreThan(cap, workers, bound) <==> cap - 1 + 25 * workers <= bound
  {
    if cap - 1 + BATCH_SIZE * workers <= bound {
      forall trace: seq<State>, steps: seq<Step>, k: nat
        | IsRun(trace, steps) && trace[0].cap == cap && |trace[0].workers| == workers && k < |trace|
        ensures |HourlyCap.SentInTheHour(trace[k])| <= bound
      {
        HourlyCap.HourlyCapHolds(trace, steps, k);
      }
    } else {
      var trace, steps := OvershootIsMet(cap, workers);
      assert !NeverMoreThan(cap, workers, bound) by {
        assert |HourlyCap.SentInTheHour(trace[|trace| - 1])| > bound;
      }
    }
  }
}

/**
 Any number of delivery workers over one outbox table, as a transition system.
 Each statement of the worker is one step, so every interleaving of workers,
 crashes, lost outcomes and the passing of time is a run of this system.

 `logs` and `queued` are history: what happened to each row, and the payload it
 was queued with. No step looks at them.
 */
module WorkerProtocol {
  import opened Options
  import opened OutboxTable
  import Templates

  /** A claimed message inside a worker's batch. `Over` is reached when its
      outcome is written, or given up on. */
  datatype Stage =
    | Waiting
    | Running(startedAt: Time)
    | Decided(startedAt: Time, verdict: Verdict)
    | Over

  datatype Slot = Slot(id: Id, template: string, attempts: int, priority: int, stage: Stage)

  /** `now` is read once, when the batch begins. */
  datatype Worker =
    | Idle
    | Begun(now: Time)
    | Swept(now: Time)
    | Counted(now: Time, maxPriority: int)
    | Delivering(now: Time, claimedAt: Time, batch: seq<Slot>)

  datatype Event =
    | Claiming(at: Time)
    | Accepting(at: Time)
    | Failing(at: Time, attempts: int)
    | Recording(at: Time)
    | Sweeping(at: Time)

  datatype State = State(
    rows: Table,
    logs: map<Id, seq<Event>>,
    queued: map<Id, Payload>,
    workers: seq<Worker>,
    clock: Time,
    cap: nat)

  datatype Step =
    | Enqueue(id: Id, template: string, securityNotification: bool, payload: Payload, scheduledAt: Time)
    | Begin(w: nat)
    | SweepStale(w: nat)
    | CountSent(w: nat)
    | ClaimBatch(w: nat, skipped: set<Id>, order: seq<Id>)
    | Start(w: nat, i: nat)
    | Decide(w: nat, i: nat, outcome: Outcome)
    | WriteOutcome(w: nat, i: nat, sentAt: Time)
    | LoseOutcome(w: nat, i: nat)
    | End(w: nat)
    | Crash(w: nat)
    | Tick(clock: Time)

  // ----- reading a state ---------------------------------------------------

  function Ids(order: seq<Id>): (ids: set<Id>)
    ensures forall i :: 0 <= i < |order| ==> order[i] in ids
  {
    set id | id in order
  }

  /** The batch is delivered by priority, then id. */
  predicate InDeliveryOrder(t: Table, order: seq<Id>) {
    forall i, j :: 0 <= i < j < |order| && order[i] in t && order[j] in t ==>
      t[order[i]].priority < t[order[j]].priority
      || (t[order[i]].priority == t[order[j]].priority && order[i] < order[j])
  }

  /** The ordered window of four: a message starts once every message at least
      four places before it is over. */
  predicate InWindow(batch: seq<Slot>, i: nat) {
    forall j :: 0 <= j && j + SEND_CONCURRENCY <= i < |batch| ==> batch[j].stage.Over?
  }

  /** Slot `i` of worker `w` exists. */
  predicate HasSlot(s: State, w: nat, i: nat) {
    w < |s.workers| && s.workers[w].Delivering? && i < |s.workers[w].batch|
  }

  function SlotOf(s: State, w: nat, i: nat): Slot
    requires HasSlot(s, w, i)
  {
    s.workers[w].batch[i]
  }

  /** Worker `w` still has to resolve its slot `i`: a live claim. */
  predicate Live(s: State, w: nat, i: nat) {
    HasSlot(s, w, i) && !SlotOf(s, w, i).stage.Over?
  }

  // ----- steps -------------------------------------------------------------

  predicate Enabled(s: State, step: Step) {
    match step
    case Enqueue(id, _, _, _, _) => id !in s.rows
    case Begin(w) => w < |s.workers| && s.workers[w].Idle?
    case SweepStale(w) => w < |s.workers| && s.workers[w].Begun?
    case CountSent(w) => w < |s.workers| && s.workers[w].Swept?
    case ClaimBatch(w, skipped, order) =>
      && w < |s.workers| && s.workers[w].Counted?
      && Selected(s.rows, s.workers[w].now, s.workers[w].maxPriority, skipped, Ids(order))
      && InDeliveryOrder(s.rows, order)
    case Start(w, i) => HasSlot(s, w, i) && SlotOf(s, w, i).stage.Waiting? && InWindow(s.workers[w].batch, i)
    case Decide(w, i, _) => HasSlot(s, w, i) && SlotOf(s, w, i).stage.Running?
    case WriteOutcome(w, i, sentAt) =>
      HasSlot(s, w, i) && SlotOf(s, w, i).stage.Decided? && sentAt <= s.clock
    case LoseOutcome(w, i) =>
      HasSlot(s, w, i) && (SlotOf(s, w, i).stage.Running? || SlotOf(s, w, i).stage.Decided?)
    case End(w) =>
      && w < |s.workers| && s.workers[w].Delivering?
      && forall i :: 0 <= i < |s.workers[w].batch| ==> s.workers[w].batch[i].stage.Over?
    case Crash(w) => w < |s.workers|
    case Tick(clock) => s.clock <= clock
  }

  function Logged(logs: map<Id, seq<Event>>, id: Id, e: Event): map<Id, seq<Event>> {
    if id in logs then logs[id := logs[id] + [e]] else logs
  }

  function LoggedAll(logs: map<Id, seq<Event>>, ids: set<Id>, e: Event): map<Id, seq<Event>> {
    map id | id in logs :: if id in ids then logs[id] + [e] else logs[id]
  }

  function StaleIds(t: Table, now: Time): set<Id> {
    set id | id in t && Stale(t[id], now)
  }

  function WithStage(s: State, w: nat, i: nat, stage: Stage): State
    requires HasSlot(s, w, i)
  {
    var worker := s.workers[w];
    s.(workers := s.workers[w := worker.(batch := worker.batch[i := worker.batch[i].(stage := stage)])])
  }

  /** The claimed rows as the worker reads them back, in delivery order. */
  function Slots(t: Table, order: seq<Id>): (batch: seq<Slot>)
    requires Ids(order) <= t.Keys
    ensures |batch| == |order|
    ensures forall i :: 0 <= i < |order| ==>
      batch[i] == Slot(order[i], t[order[i]].template, t[order[i]].attempts, t[order[i]].priority, Waiting)
  {
    seq(|order|, i requires 0 <= i < |order| =>
      Slot(order[i], t[order[i]].template, t[order[i]].attempts, t[order[i]].priority, Waiting))
  }

  function DecisionEvent(slot: Slot, outcome: Outcome, clock: Time): Option<Event> {
    match outcome
    case Accepted => Some(Accepting(clock))
    case Refused(_) => Some(Failing(clock, slot.attempts))
    case _ => None
  }

  function Apply(s: State, step: Step): State
    requires Enabled(s, step)
  {
    match step
    case Enqueue(id, template, securityNotification, payload, scheduledAt) =>
      var priority := Templates.PriorityOf(template, securityNotification);
      s.(rows := s.rows[id := Row(Pending, priority, 0, scheduledAt, None, None, template, payload)],
         logs := s.logs[id := []],
         queued := s.queued[id := payload])
    case Begin(w) => s.(workers := s.workers[w := Begun(s.clock)])
    case SweepStale(w) =>
      var now := s.workers[w].now;
      s.(rows := Sweep(s.rows, now),
         logs := LoggedAll(s.logs, StaleIds(s.rows, now), Sweeping(s.clock)),
         workers := s.workers[w := Swept(now)])
    case CountSent(w) =>
      var now := s.workers[w].now;
      var reached := |SentSince(s.rows, now - HOUR)| >= s.cap;
      s.(workers := s.workers[w := Counted(now, if reached then SECURITY else ANY_PRIORITY)])
    case ClaimBatch(w, skipped, order) =>
      var now := s.workers[w].now;
      var rows := OutboxTable.Claim(s.rows, now, Ids(order));
      s.(rows := rows,
         logs := LoggedAll(s.logs, Ids(order), Claiming(s.clock)),
         workers := s.workers[w := Delivering(now, s.clock, Slots(rows, order))])
    case Start(w, i) => WithStage(s, w, i, Running(s.clock))
    case Decide(w, i, outcome) =>
      var slot := SlotOf(s, w, i);
      var verdict := Judge(slot.template, slot.attempts, outcome, s.clock);
      var s' := WithStage(s, w, i, Decided(slot.stage.startedAt, verdict));
      var event := DecisionEvent(slot, outcome, s.clock);
      if event.Some? then s'.(logs := Logged(s.logs, slot.id, event.value)) else s'
    case WriteOutcome(w, i, sentAt) =>
      var slot := SlotOf(s, w, i);
      WithStage(s, w, i, Over).(
        rows := Record(s.rows, slot.id, slot.stage.verdict, sentAt),
        logs := Logged(s.logs, slot.id, Recording(s.clock)))
    case LoseOutcome(w, i) => WithStage(s, w, i, Over)
    case End(w) => s.(workers := s.workers[w := Idle])
    case Crash(w) => s.(workers := s.workers[w := Idle])
    case Tick(clock) => s.(clock := clock)
  }

  // ----- runs --------------------------------------------------------------

  predicate Init(s: State) {
    && s.rows == map[] && s.logs == map[] && s.queued == map[]
    && forall w :: 0 <= w < |s.workers| ==> s.workers[w].Idle?
  }

  /** `trace` is a run: it starts empty and `steps[k]` leads from state `k` to
      state `k + 1`. */
  ghost predicate IsRun(trace: seq<State>, steps: seq<Step>) {
    && |trace| == |steps| + 1
    && Init(trace[0])
    && forall k :: 0 <= k < |steps| ==> Enabled(trace[k], steps[k]) && trace[k + 1] == Apply(trace[k], steps[k])
  }

  /** Every live claim is younger than the lock's ten minutes. */
  ghost predicate Timely(s: State) {
    forall w: nat, i: nat :: Live(s, w, i) ==> s.clock <= s.workers[w].now + STALE_LOCK
  }

  /** The workers of a timely run resolve each claim before its lock is stale. */
  ghost predicate IsTimely(trace: seq<State>) {
    forall k :: 0 <= k < |trace| ==> Timely(trace[k])
  }

  // ----- facts every proof about runs uses ---------------------------------

  /** A worker's reading of the clock is never in the future. */
  ghost predicate Clocked(s: State) {
    forall w :: 0 <= w < |s.workers| && !s.workers[w].Idle? ==>
      && s.workers[w].now <= s.clock
      && (s.workers[w].Delivering? ==> s.workers[w].now <= s.workers[w].claimedAt <= s.clock)
  }

  lemma StepKeepsClocked(s: State, step: Step)
    requires Clocked(s) && Enabled(s, step)
    ensures Clocked(Apply(s, step))
  {}

  lemma {:induction false} SizeOfDistinct(order: seq<Id>)
    requires forall i, j :: 0 <= i < j < |order| ==> order[i] != order[j]
    ensures |Ids(order)| == |order|
  {
    if order != [] {
      var n := |order| - 1;
      SizeOfDistinct(order[..n]);
      assert Ids(order) == Ids(order[..n]) + {order[n]};
    }
  }

  /** A batch never holds more than 25 messages, each once. */
  lemma BatchIsSmall(s: State, w: nat, skipped: set<Id>, order: seq<Id>)
    requires Enabled(s, ClaimBatch(w, skipped, order))
    ensures |order| <= BATCH_SIZE
    ensures forall id :: id in order ==> id in s.rows && s.rows[id].status.Pending?
    ensures forall i, j :: 0 <= i < j < |order| ==> order[i] != order[j]
  {
    assert forall id :: id in order ==> id in Ids(order);
    SizeOfDistinct(order);
  }
}

/**
 The `email_outbox` table: its rows, the retry delay, and the statements the
 delivery worker runs on it. Each SQL statement is a function from the table
 to the table, applied as one atomic step.
 */
module OutboxTable {
  import opened Options
  import Templates

  /** A row id (a UUID in the database). */
  type Id = nat

  /** Microseconds, the resolution of a database timestamp. */
  type Time = int

  const SECOND: Time := 1_000_000
  const MINUTE: Time := 60 * SECOND
  const HOUR: Time := 60 * MINUTE

  const MAX_ATTEMPTS := 10
  const MAX_BACKOFF_SECS := 3600
  const BATCH_SIZE := 25
  const SEND_CONCURRENCY := 4
  const STALE_LOCK: Time := 10 * MINUTE
  /** The largest `i16`: no priority is above it. */
  const ANY_PRIORITY := 32767
  const SECURITY := 0

  datatype Status = Pending | Sending | Sent | Failed | Skipped

  /** A message that will never be looked at again. */
  predicate Terminal(status: Status) {
    status.Sent? || status.Failed? || status.Skipped?
  }

  /** The JSON of the template's variables. */
  type Payload = string
  const EMPTY_PAYLOAD: Payload := "{}"

  datatype Row = Row(
    status: Status,
    priority: int,
    attempts: int,
    scheduledAt: Time,
    lockedAt: Option<Time>,
    sentAt: Option<Time>,
    template: string,
    payload: Payload)

  type Table = map<Id, Row>

  // ----- the retry delay ---------------------------------------------------

  function Clamp(x: int, low: int, high: int): int {
    if x < low then low else if x > high then high else x
  }

  function Pow2(n: nat): nat {
    if n == 0 then 1 else 2 * Pow2(n - 1)
  }

  /** The seconds before the next attempt, after `attempts` of them. */
  function BackoffSecs(attempts: int): int {
    var seconds := 30 * Pow2(Clamp(attempts - 1, 0, 10));
    if seconds < MAX_BACKOFF_SECS then seconds else MAX_BACKOFF_SECS
  }

  function Backoff(attempts: int): Time {
    BackoffSecs(attempts) * SECOND
  }

  lemma {:induction false} Pow2Monotone(m: nat, n: nat)
    requires m <= n
    ensures 1 <= Pow2(m) <= Pow2(n)
    decreases n
  {
    if m < n {
      Pow2Monotone(m, n - 1);
    } else if m > 0 {
      Pow2Monotone(m - 1, n - 1);
    }
  }

  /** The delay grows with the attempts, from half a minute to an hour, and
      the product before the cap fits a signed 64-bit integer. */
  lemma BackoffIsMonotoneAndBounded(a: int, b: int)
    requires a <= b
    ensures 30 <= BackoffSecs(a) <= BackoffSecs(b) <= 3600
    ensures 30 * Pow2(Clamp(b - 1, 0, 10)) < 0x8000_0000_0000_0000
  {
    Pow2Monotone(Clamp(a - 1, 0, 10), Clamp(b - 1, 0, 10));
    Pow2Monotone(Clamp(b - 1, 0, 10), 10);
    assert Pow2(10) == 1024 by {
      assert Pow2(5) == 32;
    }
  }

  /** The delay doubles until the hour is reached, at the eighth attempt. */
  lemma BackoffDoubles(a: int)
    ensures 1 <= a <= 6 ==> BackoffSecs(a + 1) == 2 * BackoffSecs(a)
    ensures BackoffSecs(a) == 3600 <==> a >= 8
    ensures a <= 1 ==> BackoffSecs(a) == 30
  {
    assert Pow2(3) == 8;
    assert Pow2(6) == 64;
    assert Pow2(7) == 128;
    if a >= 8 {
      Pow2Monotone(7, Clamp(a - 1, 0, 10));
    } else if a > 1 {
      Pow2Monotone(Clamp(a - 1, 0, 10), 6);
    }
  }

  // ----- statements --------------------------------------------------------

  predicate Stale(row: Row, now: Time) {
    row.status.Sending? && row.lockedAt.Some? && row.lockedAt.value < now - STALE_LOCK
  }

  /** Messages left in `sending` by a worker that died go back to `pending`. */
  function Sweep(t: Table, now: Time): Table {
    map id | id in t :: if Stale(t[id], now) then t[id].(status := Pending, lockedAt := None) else t[id]
  }

  predicate CountsSince(row: Row, since: Time) {
    row.status.Sent? && row.priority > 0 && row.sentAt.Some? && row.sentAt.value > since
  }

  /** The non-security messages sent after `since`. */
  function SentSince(t: Table, since: Time): set<Id> {
    set id | id in t && CountsSince(t[id], since)
  }

  predicate Eligible(row: Row, now: Time, maxPriority: int) {
    row.status.Pending? && row.scheduledAt <= now && row.priority <= maxPriority
  }

  /** The rows a claim may take; `skipped` are those another transaction has
      locked at that instant. */
  function EligibleIds(t: Table, now: Time, maxPriority: int, skipped: set<Id>): set<Id> {
    set id | id in t && id !in skipped && Eligible(t[id], now, maxPriority)
  }

  /** `a` comes before `b`, or ties with it, in the claim's sort order. */
  predicate NotAfter(a: Row, b: Row) {
    a.priority < b.priority || (a.priority == b.priority && a.scheduledAt <= b.scheduledAt)
  }

  /** What `ORDER BY priority, scheduled_at LIMIT 25` may return. Rows that tie
      are taken in any order, so this is a relation. */
  predicate Selected(t: Table, now: Time, maxPriority: int, skipped: set<Id>, chosen: set<Id>) {
    var eligible := EligibleIds(t, now, maxPriority, skipped);
    && chosen <= eligible
    && |chosen| == (if |eligible| < BATCH_SIZE then |eligible| else BATCH_SIZE)
    && forall c, o :: c in chosen && o in eligible && o !in chosen ==> NotAfter(t[c], t[o])
  }

  function Claim(t: Table, now: Time, chosen: set<Id>): Table {
    map id | id in t ::
      if id in chosen
      then t[id].(status := Sending, lockedAt := Some(now), attempts := t[id].attempts + 1)
      else t[id]
  }

  /** How a delivery ends: in a final state, or with another try at `at`. */
  datatype Verdict =
    | Finish(status: Status, clearPayload: bool)
    | Retry(at: Time)

  /** A row after its verdict is written; `sentAt` is read when writing. */
  function Recorded(row: Row, verdict: Verdict, sentAt: Time): Row {
    match verdict
    case Finish(status, clear) =>
      row.(status := status,
           lockedAt := None,
           sentAt := if status.Sent? then Some(sentAt) else row.sentAt,
           payload := if clear then EMPTY_PAYLOAD else row.payload)
    case Retry(at) =>
      row.(status := Pending, lockedAt := None, scheduledAt := at)
  }

  /** Both outcome statements match on the id alone. */
  function Record(t: Table, id: Id, verdict: Verdict, sentAt: Time): Table {
    if id in t then t[id := Recorded(t[id], verdict, sentAt)] else t
  }

  /** What one delivery ran into. */
  datatype Outcome =
    | UnknownTemplate
    | OptedOut
    | NoTransport
    | Accepted
    | Refused(permanent: bool)

  /** The verdict on a message claimed for the `attempts`-th time whose
      outcome is known at `now`. */
  function Judge(template: string, attempts: int, outcome: Outcome, now: Time): Verdict {
    var sensitive := Templates.IsSensitive(template);
    match outcome
    case UnknownTemplate => Finish(Failed, true)
    case OptedOut => Finish(Skipped, sensitive)
    case NoTransport => Finish(Skipped, sensitive)
    case Accepted => Finish(Sent, sensitive)
    case Refused(permanent) =>
      if permanent || attempts >= MAX_ATTEMPTS then Finish(Failed, sensitive)
      else Retry(now + Backoff(attempts))
  }
}

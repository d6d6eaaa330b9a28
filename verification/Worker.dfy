/**
 One run of the delivery worker, in its own steps: sweep, count, claim, deliver
 each message and record what happened. The statements it executes are those
 the protocol interleaves; here nobody else writes meanwhile.
 */
module Worker {
  import opened Options
  import opened OutboxTable
  import opened WorkerProtocol
  import ClaimSelection
  import Outcomes

  const FINISH_ATTEMPTS := 3

  /** What is reported about one message. */
  datatype Delivery = WasSent | WasSkipped | Retrying | HasFailed

  /** A delivery's report, or a database error. */
  datatype Reported = Report(delivery: Delivery) | DatabaseError

  /** What a batch returns. */
  datatype BatchResult = Reports(deliveries: seq<Delivery>) | BatchError

  /** Whatever the worker meets while delivering a message: whether it could
      read the recipient's preferences, what the delivery ran into and when, and
      for each write attempted the time it succeeded at, if it did. */
  datatype Fate = Fate(readable: bool, outcome: Outcome, decidedAt: Time, writes: seq<Option<Time>>)

  predicate Complete(fates: map<Id, Fate>, t: Table) {
    forall id :: id in t ==> id in fates && |fates[id].writes| == FINISH_ATTEMPTS
  }

  /** The first successful write. */
  function FirstWrite(writes: seq<Option<Time>>): Option<Time> {
    if writes == [] then None else if writes[0].Some? then writes[0] else FirstWrite(writes[1..])
  }

  /** When a verdict reaches the table: a final state is tried three times, a
      retry once. */
  function WrittenAt(verdict: Verdict, writes: seq<Option<Time>>): Option<Time>
    requires |writes| == FINISH_ATTEMPTS
  {
    if verdict.Finish? then FirstWrite(writes) else writes[0]
  }

  function VerdictOf(row: Row, fate: Fate): Verdict {
    Judge(row.template, row.attempts, fate.outcome, fate.decidedAt)
  }

  /** A claimed row once its delivery is over. */
  function Settled(row: Row, fate: Fate): Row
    requires |fate.writes| == FINISH_ATTEMPTS
  {
    var verdict := VerdictOf(row, fate);
    var at := WrittenAt(verdict, fate.writes);
    if (fate.readable || fate.outcome.UnknownTemplate?) && at.Some? then Recorded(row, verdict, at.value) else row
  }

  function ReportOf(row: Row, fate: Fate): Reported
    requires |fate.writes| == FINISH_ATTEMPTS
  {
    var verdict := VerdictOf(row, fate);
    if !(fate.readable || fate.outcome.UnknownTemplate?) || WrittenAt(verdict, fate.writes).None? then DatabaseError
    else match verdict
      case Retry(_) => Report(Retrying)
      case Finish(status, _) =>
        Report(if status.Sent? then WasSent else if status.Skipped? then WasSkipped else HasFailed)
  }

  /** The first of the writes that succeeded. */
  function FirstOf(writes: seq<Option<Time>>): Option<Time>
    requires |writes| == 3
  {
    if writes[0].Some? then writes[0] else if writes[1].Some? then writes[1] else writes[2]
  }

  /** The recipient's wishes could be read, unless nothing was asked; and the first
      write worked, or one of three if the delivery is not tried again. */
  predicate IsRecorded(attempts: int, fate: Fate)
    requires |fate.writes| == 3
  {
    && (fate.readable || fate.outcome == UnknownTemplate)
    && (if Outcomes.IsTriedAgain(attempts, fate.outcome) then fate.writes[0].Some? else FirstOf(fate.writes).Some?)
  }

  lemma RecordedIff(row: Row, fate: Fate)
    requires |fate.writes| == 3
    ensures ReportOf(row, fate).Report? <==> IsRecorded(row.attempts, fate)
    ensures ReportOf(row, fate).Report? ==>
      var at := FirstOf(fate.writes);
      at.Some? && Outcomes.Shows(row, Settled(row, fate), row.template, row.attempts, fate.outcome, fate.decidedAt, at.value)
  {
    FirstIsFirst(fate.writes);
    if FirstOf(fate.writes).Some? {
      Outcomes.RecordedShows(row, row.template, row.attempts, fate.outcome, fate.decidedAt, FirstOf(fate.writes).value);
    }
  }

  lemma FirstIsFirst(writes: seq<Option<Time>>)
    requires |writes| == 3
    ensures FirstWrite(writes) == FirstOf(writes)
  {
    assert writes[1..][1..] == [writes[2]] && [writes[2]][1..] == [];
    assert FirstWrite([writes[2]]) == writes[2];
  }

  /** A row whose outcome was recorded is not `sending`; one whose outcome was
      not is exactly as claimed, for the sweep to find. */
  lemma SettledOrStillClaimed(row: Row, fate: Fate)
    requires |fate.writes| == FINISH_ATTEMPTS && row.status.Sending?
    ensures ReportOf(row, fate).DatabaseError? ==> Settled(row, fate) == row
    ensures ReportOf(row, fate).Report? ==>
      var row' := Settled(row, fate);
      && row'.lockedAt.None?
      && row'.attempts == row.attempts
      && (ReportOf(row, fate).delivery.WasSent? <==> row'.status.Sent?)
      && (ReportOf(row, fate).delivery.Retrying? <==> row'.status.Pending?)
      && (row'.status.Pending? ==> row'.scheduledAt == fate.decidedAt + Backoff(row.attempts) && row.attempts < MAX_ATTEMPTS)
      && (ReportOf(row, fate).delivery.HasFailed? <==> row'.status.Failed?)
      && (ReportOf(row, fate).delivery.WasSkipped? <==> row'.status.Skipped?)
  {}

  /** The report of a whole batch: only when every message failed to be
      recorded is the batch itself an error. */
  function BatchOf(reports: seq<Reported>): BatchResult {
    if reports != [] && forall i :: 0 <= i < |reports| ==> reports[i].DatabaseError? then BatchError
    else Reports(seq(|reports|, i requires 0 <= i < |reports| =>
      if reports[i].Report? then reports[i].delivery else Retrying))
  }

  /** What is reported of a message is what its row says; one still claimed will be
      tried again. */
  predicate Tells(delivery: Delivery, status: Status) {
    match status
    case Sent => delivery == WasSent
    case Skipped => delivery == WasSkipped
    case Failed => delivery == HasFailed
    case _ => delivery == Retrying
  }

  /** Still being sent, under a lock of more than ten minutes. */
  predicate IsAbandoned(row: Row, now: Time) {
    row.status == Sending && row.lockedAt.Some? && now - row.lockedAt.value > 600 * SECOND
  }

  /** What was sent within the hour, codes and security notices aside. */
  function SentRecently(t: Table, now: Time): set<Id> {
    set id | id in t && t[id].status == Sent && t[id].priority > 0
             && t[id].sentAt.Some? && now - t[id].sentAt.value < 3600 * SECOND
  }

  lemma SweepsNoneSent(t: Table, now: Time)
    ensures |SentSince(Sweep(t, now), now - HOUR)| == |SentRecently(t, now)|
  {
    assert SentSince(Sweep(t, now), now - HOUR) == SentRecently(t, now);
  }

  class Outbox {
    var rows: Table

    /** Afterwards no lock is stale: what a dead worker left is pending again,
        its attempt still counted, and nothing else changes. */
    method SweepStaleLocks(now: Time)
      modifies this
      ensures rows == Sweep(old(rows), now)
      ensures rows.Keys == old(rows.Keys) && forall id :: id in rows ==> !Stale(rows[id], now)
      ensures forall id :: id in rows ==>
        rows[id] == if IsAbandoned(old(rows)[id], now) then old(rows)[id].(status := Pending, lockedAt := None)
                    else old(rows)[id]
    {
      rows := Sweep(rows, now);
    }

    method SentLastHour(now: Time) returns (sent: nat)
      ensures sent == |SentSince(rows, now - HOUR)|
    {
      sent := |SentSince(rows, now - HOUR)|;
    }

    /** Claims a batch and returns it in delivery order. */
    method ClaimDue(now: Time, maxPriority: int, skipped: set<Id>) returns (order: seq<Id>)
      modifies this
      ensures Selected(old(rows), now, maxPriority, skipped, Ids(order))
      ensures ClaimSelection.InTurn(old(rows), now, maxPriority, skipped, Ids(order))
      ensures InDeliveryOrder(old(rows), order)
      ensures rows == OutboxTable.Claim(old(rows), now, Ids(order))
      ensures rows.Keys == old(rows.Keys)
      ensures forall id :: id in rows && id !in order ==> rows[id] == old(rows)[id]
      ensures forall id :: id in rows && id in order ==>
        rows[id] == old(rows)[id].(status := Sending, lockedAt := Some(now), attempts := old(rows)[id].attempts + 1)
      ensures forall i, j :: 0 <= i < j < |order| && order[i] in rows && order[j] in rows ==>
        rows[order[i]].priority < rows[order[j]].priority
        || (rows[order[i]].priority == rows[order[j]].priority && order[i] < order[j])
    {
      var eligible := EligibleIds(rows, now, maxPriority, skipped);
      ghost var example := ClaimSelection.ClaimExists(rows, now, maxPriority, skipped);
      var chosen :| chosen <= eligible && Selected(rows, now, maxPriority, skipped, chosen);
      ClaimSelection.ClaimedInTurn(rows, now, maxPriority, skipped, chosen);
      order := InOrder(rows, chosen);
      rows := OutboxTable.Claim(rows, now, chosen);
    }

    /** Records a final state, up to three times on a database error. */
    method Finish(id: Id, status: Status, clearPayload: bool, writes: seq<Option<Time>>) returns (written: bool)
      requires |writes| == FINISH_ATTEMPTS
      modifies this
      ensures written <==> FirstWrite(writes).Some?
      ensures written <==> writes[0].Some? || writes[1].Some? || writes[2].Some?
      ensures rows == if written then Record(old(rows), id, Verdict.Finish(status, clearPayload), FirstWrite(writes).value)
                      else old(rows)
    {
      var attempt := 0;
      FirstIsFirst(writes);
      while true
        invariant 0 <= attempt < FINISH_ATTEMPTS
        invariant rows == old(rows)
        invariant FirstWrite(writes) == FirstWrite(writes[attempt..])
        decreases FINISH_ATTEMPTS - attempt
      {
        attempt := attempt + 1;
        var at := writes[attempt - 1];
        assert writes[attempt - 1..][1..] == writes[attempt..];
        if at.Some? {
          rows := Record(rows, id, Verdict.Finish(status, clearPayload), at.value);
          return true;
        }
        if attempt >= FINISH_ATTEMPTS {
          assert writes[attempt..] == [];
          return false;
        }
      }
    }

    /** Delivers one claimed message and records the outcome. */
    method Deliver(id: Id, fate: Fate) returns (reported: Reported)
      requires id in rows && |fate.writes| == FINISH_ATTEMPTS
      modifies this
      ensures rows == old(rows)[id := Settled(old(rows)[id], fate)]
      ensures reported == ReportOf(old(rows)[id], fate)
      ensures reported.DatabaseError? ==> rows == old(rows)
      ensures reported.DatabaseError? <==> !IsRecorded(old(rows)[id].attempts, fate)
      ensures reported.Report? ==>
        var (before, at) := (old(rows)[id], FirstOf(fate.writes));
        at.Some? && Outcomes.Shows(before, rows[id], before.template, before.attempts, fate.outcome, fate.decidedAt, at.value)
    {
      var email := rows[id];
      RecordedIff(email, fate);
      if !fate.outcome.UnknownTemplate? && !fate.readable {
        return DatabaseError;
      }
      var verdict := VerdictOf(email, fate);
      match verdict {
        case Finish(status, clearPayload) =>
          var written := Finish(id, status, clearPayload, fate.writes);
          if !written {
            return DatabaseError;
          }
          reported := Report(if status.Sent? then WasSent else if status.Skipped? then WasSkipped else HasFailed);
        case Retry(_) =>
          if fate.writes[0].None? {
            return DatabaseError;
          }
          rows := Record(rows, id, verdict, fate.writes[0].value);
          reported := Report(Retrying);
      }
    }

    /** Delivers the claimed messages and gathers their reports. */
    method DeliverAll(order: seq<Id>, fates: map<Id, Fate>) returns (reports: seq<Reported>)
      requires Complete(fates, rows) && Ids(order) <= rows.Keys
      requires forall i, j :: 0 <= i < j < |order| ==> order[i] != order[j]
      modifies this
      ensures rows == AllSettled(old(rows), Ids(order), fates)
      ensures reports == ReportsOf(old(rows), order, fates)
    {
      reports := [];
      var i := 0;
      while i < |order|
        invariant 0 <= i <= |order|
        invariant rows == AllSettled(old(rows), Ids(order[..i]), fates)
        invariant reports == ReportsOf(old(rows), order[..i], fates)
      {
        var id := order[i];
        assert id in Ids(order) && id !in Ids(order[..i]);
        var reported := Deliver(id, fates[id]);
        assert order[..i + 1] == order[..i] + [id];
        assert Ids(order[..i + 1]) == Ids(order[..i]) + {id};
        reports := reports + [reported];
        i := i + 1;
      }
      assert order[..i] == order;
    }

    /** One whole batch: the rows claimed from the swept table end as their own
        deliveries left them, and no other row changes. */
    method ProcessBatch(now: Time, cap: nat, skipped: set<Id>, fates: map<Id, Fate>)
      returns (order: seq<Id>, result: BatchResult)
      requires Complete(fates, rows)
      modifies this
      ensures Selected(Sweep(old(rows), now), now, MaxPriority(Sweep(old(rows), now), now, cap), skipped, Ids(order))
      ensures ClaimSelection.InTurn(Sweep(old(rows), now), now, if |SentRecently(old(rows), now)| >= cap then 0 else 32767,
                                    skipped, Ids(order))
      ensures InDeliveryOrder(Sweep(old(rows), now), order)
      ensures rows == AllSettled(OutboxTable.Claim(Sweep(old(rows), now), now, Ids(order)), Ids(order), fates)
      ensures result == BatchOf(ReportsOf(OutboxTable.Claim(Sweep(old(rows), now), now, Ids(order)), order, fates))
      ensures rows.Keys == old(rows.Keys) && forall i :: 0 <= i < |order| ==> order[i] in rows
      ensures result.BatchError? <==> order != [] && forall i :: 0 <= i < |order| ==> rows[order[i]].status == Sending
      ensures result.Reports? ==> |result.deliveries| == |order|
      ensures result.Reports? ==> forall i :: 0 <= i < |order| ==> Tells(result.deliveries[i], rows[order[i]].status)
    {
      SweepsNoneSent(rows, now);
      SweepStaleLocks(now);
      var sent := SentLastHour(now);
      var maxPriority := if sent >= cap then SECURITY else ANY_PRIORITY;
      ghost var swept := rows;
      order := ClaimDue(now, maxPriority, skipped);
      assert forall i :: 0 <= i < |order| ==> order[i] in Ids(order) && order[i] in swept;
      var reports := DeliverAll(order, fates);
      result := BatchOf(reports);
      ReportsTell(OutboxTable.Claim(swept, now, Ids(order)), order, fates);
    }
  }

  function MaxPriority(t: Table, now: Time, cap: nat): int {
    if |SentSince(t, now - HOUR)| >= cap then SECURITY else ANY_PRIORITY
  }

  function AllSettled(t: Table, ids: set<Id>, fates: map<Id, Fate>): Table
    requires Complete(fates, t)
  {
    map id | id in t :: if id in ids then Settled(t[id], fates[id]) else t[id]
  }

  function ReportsOf(t: Table, order: seq<Id>, fates: map<Id, Fate>): seq<Reported>
    requires Complete(fates, t) && Ids(order) <= t.Keys
  {
    seq(|order|, i requires 0 <= i < |order| => ReportOf(t[order[i]], fates[order[i]]))
  }

  /** A batch is an error when no outcome at all was recorded, and else tells each. */
  lemma ReportsTell(t: Table, order: seq<Id>, fates: map<Id, Fate>)
    requires Complete(fates, t) && Ids(order) <= t.Keys && forall id :: id in order ==> id in t && t[id].status == Sending
    ensures var (result, after) := (BatchOf(ReportsOf(t, order, fates)), AllSettled(t, Ids(order), fates));
      && (forall i :: 0 <= i < |order| ==> order[i] in after)
      && (result.BatchError? <==> order != [] && forall i :: 0 <= i < |order| ==> after[order[i]].status == Sending)
      && (result.Reports? ==> |result.deliveries| == |order|)
      && (result.Reports? ==> forall i :: 0 <= i < |order| ==> Tells(result.deliveries[i], after[order[i]].status))
  {
    var reports, after := ReportsOf(t, order, fates), AllSettled(t, Ids(order), fates);
    forall i | 0 <= i < |order| ensures order[i] in after && reports[i].DatabaseError? == (after[order[i]].status == Sending) {
      assert order[i] in order && order[i] in Ids(order);
      SettledOrStillClaimed(t[order[i]], fates[order[i]]);
    }
    forall i | 0 <= i < |order| && reports[i].Report? ensures Tells(reports[i].delivery, after[order[i]].status) {
      SettledOrStillClaimed(t[order[i]], fates[order[i]]);
    }
  }

  /** The rows of a claim, by priority and then id. */
  method InOrder(t: Table, chosen: set<Id>) returns (order: seq<Id>)
    requires chosen <= t.Keys
    ensures Ids(order) == chosen && InDeliveryOrder(t, order)
  {
    order := [];
    var left := chosen;
    while left != {}
      invariant Ids(order) + left == chosen && Ids(order) !! left
      invariant InDeliveryOrder(t, order)
      invariant forall a, b :: a in order && b in left ==> Before(t, a, b)
      decreases left
    {
      ghost var least := LeastOf(t, left);
      var next :| next in left && forall b :: b in left ==> b == next || Before(t, next, b);
      assert Ids(order + [next]) == Ids(order) + {next};
      order, left := order + [next], left - {next};
    }
    assert Ids(order) == chosen;
  }

  predicate Before(t: Table, a: Id, b: Id)
    requires a in t && b in t
  {
    t[a].priority < t[b].priority || (t[a].priority == t[b].priority && a < b)
  }

  lemma {:induction false} LeastOf(t: Table, ids: set<Id>) returns (least: Id)
    requires ids <= t.Keys && ids != {}
    ensures least in ids && forall b :: b in ids ==> b == least || Before(t, least, b)
  {
    least :| least in ids;
    if ids != {least} {
      var first := least;
      var other := LeastOf(t, ids - {first});
      least := if Before(t, first, other) then first else other;
      forall b | b in ids ensures b == least || Before(t, least, b) {
        assert b == first || b == other || Before(t, other, b);
      }
    }
  }
}

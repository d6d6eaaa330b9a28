/**
 Which rows a claim takes: by rank among the due ones, so that nothing queued
 behind a code or security notice can hold it back.
 */
module ClaimSelection {
  import opened OutboxTable
  import opened WorkerProtocol
  import Templates

  /** The eligible rows other than `id` that the claim's order puts strictly
      before it. */
  function Ahead(t: Table, eligible: set<Id>, id: Id): set<Id>
    requires id in t && eligible <= t.Keys
  {
    set e | e in eligible && !NotAfter(t[id], t[e])
  }

  /** The eligible rows other than `id` that come before it or tie with it. */
  function AheadOrTied(t: Table, eligible: set<Id>, id: Id): set<Id>
    requires id in t && eligible <= t.Keys
  {
    set e | e in eligible && e != id && NotAfter(t[e], t[id])
  }

  lemma Smaller(a: set<Id>, b: set<Id>)
    requires a <= b
    ensures |a| <= |b|
    ensures |a| == |b| ==> a == b
  {
    assert b == a + (b - a);
  }

  /** A claim takes rows by rank: fewer than 25 are ahead of each one taken,
      and each one left has 25 that come before it or tie with it. */
  lemma ClaimGoesByRank(t: Table, now: Time, maxPriority: int, skipped: set<Id>, chosen: set<Id>, id: Id)
    requires Selected(t, now, maxPriority, skipped, chosen)
    requires id in EligibleIds(t, now, maxPriority, skipped)
    ensures var eligible := EligibleIds(t, now, maxPriority, skipped);
      && (id in chosen ==> |Ahead(t, eligible, id)| < BATCH_SIZE)
      && (id !in chosen ==> |AheadOrTied(t, eligible, id)| >= BATCH_SIZE)
  {
    var eligible := EligibleIds(t, now, maxPriority, skipped);
    if id in chosen {
      assert Ahead(t, eligible, id) <= chosen - {id};
      Smaller(Ahead(t, eligible, id), chosen - {id});
      assert |chosen| == |chosen - {id}| + 1;
    } else {
      assert chosen <= AheadOrTied(t, eligible, id);
      Smaller(chosen, AheadOrTied(t, eligible, id));
      Smaller(chosen, eligible);
    }
  }

  /** The rows the claim statement is for: pending, due, not locked by another and
      within the claim's priority. */
  function DueRows(t: Table, now: Time, maxPriority: int, skipped: set<Id>): set<Id> {
    set id | id in t && t[id].status == Pending && t[id].scheduledAt <= now && t[id].priority <= maxPriority && id !in skipped
  }

  /** The rows of a smaller priority, and those of the same that were due earlier. */
  function Earlier(t: Table, among: set<Id>, id: Id): set<Id>
    requires id in t && among <= t.Keys
  {
    set e | e in among && (t[e].priority < t[id].priority
                           || (t[e].priority == t[id].priority && t[e].scheduledAt < t[id].scheduledAt))
  }

  /** Those that were due at the same time besides. */
  function EarlierOrLevel(t: Table, among: set<Id>, id: Id): set<Id>
    requires id in t && among <= t.Keys
  {
    set e | e in among && e != id && (t[e].priority < t[id].priority
                                      || (t[e].priority == t[id].priority && t[e].scheduledAt <= t[id].scheduledAt))
  }

  /** Whose turn it is, for every priority: a due row is claimed if fewer than 25
      others come before it or are level with it, and left if 25 come before it;
      nothing else is claimed, and as much as there is of it. */
  predicate InTurn(t: Table, now: Time, maxPriority: int, skipped: set<Id>, chosen: set<Id>) {
    var due := DueRows(t, now, maxPriority, skipped);
    && chosen <= due
    && |chosen| == (if |due| < 25 then |due| else 25)
    && forall id :: id in due ==>
         && (|EarlierOrLevel(t, due, id)| < 25 ==> id in chosen)
         && (|Earlier(t, due, id)| >= 25 ==> id !in chosen)
  }

  lemma ClaimedInTurn(t: Table, now: Time, maxPriority: int, skipped: set<Id>, chosen: set<Id>)
    requires Selected(t, now, maxPriority, skipped, chosen)
    ensures InTurn(t, now, maxPriority, skipped, chosen)
  {
    var due := DueRows(t, now, maxPriority, skipped);
    assert due == EligibleIds(t, now, maxPriority, skipped);
    forall id | id in due
      ensures |EarlierOrLevel(t, due, id)| < 25 ==> id in chosen
      ensures |Earlier(t, due, id)| >= 25 ==> id !in chosen
    {
      ClaimGoesByRank(t, now, maxPriority, skipped, chosen, id);
      assert AheadOrTied(t, due, id) == EarlierOrLevel(t, due, id);
      assert Ahead(t, due, id) == Earlier(t, due, id);
    }
  }

  /** In the protocol: whose turn it is is claimed, whatever its priority. */
  lemma DueIsClaimedNext(s: State, w: nat, skipped: set<Id>, order: seq<Id>, id: Id)
    requires Enabled(s, ClaimBatch(w, skipped, order))
    requires var due := DueRows(s.rows, s.workers[w].now, s.workers[w].maxPriority, skipped);
      id in due && |EarlierOrLevel(s.rows, due, id)| < 25
    ensures id in order
  {
    ClaimedInTurn(s.rows, s.workers[w].now, s.workers[w].maxPriority, skipped, Ids(order));
  }

  /** The due codes and security notices, other than `id`, that have waited at
      least as long. */
  function SecurityBefore(t: Table, now: Time, id: Id): set<Id>
    requires id in t
  {
    set e | e in t && e != id && Eligible(t[e], now, SECURITY) && t[e].scheduledAt <= t[id].scheduledAt
  }

  /** A due code or security notice with fewer than 25 of its kind before it
      is in the next batch of any worker, however many other messages are due
      and whether or not the hourly cap was reached. */
  lemma SecurityIsClaimedNext(s: State, w: nat, skipped: set<Id>, order: seq<Id>, id: Id)
    requires Enabled(s, ClaimBatch(w, skipped, order))
    requires s.workers[w].maxPriority in {SECURITY, ANY_PRIORITY}
    requires forall e :: e in s.rows ==> s.rows[e].priority >= SECURITY
    requires id in s.rows && id !in skipped && Eligible(s.rows[id], s.workers[w].now, SECURITY)
    requires |SecurityBefore(s.rows, s.workers[w].now, id)| < BATCH_SIZE
    ensures id in order
  {
    var now, maxPriority := s.workers[w].now, s.workers[w].maxPriority;
    var eligible := EligibleIds(s.rows, now, maxPriority, skipped);
    ClaimGoesByRank(s.rows, now, maxPriority, skipped, Ids(order), id);
    assert AheadOrTied(s.rows, eligible, id) <= SecurityBefore(s.rows, now, id);
    Smaller(AheadOrTied(s.rows, eligible, id), SecurityBefore(s.rows, now, id));
  }

  /** Rows keep the priority their template gave them, and workers claim either
      everything or security messages only. */
  ghost predicate Ranked(s: State) {
    && (forall id :: id in s.rows ==> RankedRow(s.rows[id]))
    && (forall w :: 0 <= w < |s.workers| && s.workers[w].Counted? ==> s.workers[w].maxPriority in {SECURITY, ANY_PRIORITY})
  }

  predicate RankedRow(row: Row) {
    row.priority >= SECURITY && (Templates.IsCodeTemplate(row.template) ==> row.priority == SECURITY)
  }

  /** No step changes the rank of a row. */
  lemma RankStays(s: State, step: Step)
    requires Enabled(s, step)
    ensures forall id :: id in s.rows ==>
      && id in Apply(s, step).rows
      && Apply(s, step).rows[id].priority == s.rows[id].priority
      && Apply(s, step).rows[id].template == s.rows[id].template
    ensures forall id :: id in Apply(s, step).rows ==> id in s.rows || (step.Enqueue? && id == step.id)
  {}

  lemma StepKeepsRanked(s: State, step: Step)
    requires Ranked(s) && Enabled(s, step)
    ensures Ranked(Apply(s, step))
  {
    RankStays(s, step);
    if step.Enqueue? && Templates.IsCodeTemplate(step.template) {
      Templates.CodesRankAsSecurity(step.template, step.securityNotification);
    }
  }

  lemma {:induction false} RunKeepsRanked(trace: seq<State>, steps: seq<Step>, k: nat)
    requires IsRun(trace, steps) && k < |trace|
    ensures Ranked(trace[k])
  {
    if k > 0 {
      RunKeepsRanked(trace, steps, k - 1);
      StepKeepsRanked(trace[k - 1], steps[k - 1]);
    }
  }

  /** Over whole runs: a due message carrying a code is in the next batch
      claimed by any worker that finds fewer than 25 codes and security notices
      due before it. */
  lemma CodesAreClaimedNext(trace: seq<State>, steps: seq<Step>, k: nat, id: Id)
    requires IsRun(trace, steps) && k < |steps| && steps[k].ClaimBatch?
    requires id in trace[k].rows && id !in steps[k].skipped
    requires Templates.IsCodeTemplate(trace[k].rows[id].template)
    requires trace[k].rows[id].status.Pending? && trace[k].rows[id].scheduledAt <= trace[k].workers[steps[k].w].now
    requires |SecurityBefore(trace[k].rows, trace[k].workers[steps[k].w].now, id)| < BATCH_SIZE
    ensures id in trace[k + 1].rows && trace[k + 1].rows[id].status.Sending?
  {
    RunKeepsRanked(trace, steps, k);
    SecurityIsClaimedNext(trace[k], steps[k].w, steps[k].skipped, steps[k].order, id);
  }

  /** The first of some rows, in the claim's order. */
  lemma {:induction false} First(t: Table, ids: set<Id>) returns (first: Id)
    requires ids <= t.Keys && ids != {}
    ensures first in ids && forall id :: id in ids ==> NotAfter(t[first], t[id])
  {
    first :| first in ids;
    if ids != {first} {
      var other := First(t, ids - {first});
      if !NotAfter(t[first], t[other]) {
        first := other;
      }
    }
  }

  /** Some `limit` rows that come before the rest. */
  lemma {:induction false} Firsts(t: Table, ids: set<Id>, limit: nat) returns (chosen: set<Id>)
    requires ids <= t.Keys
    ensures chosen <= ids && |chosen| == (if |ids| < limit then |ids| else limit)
    ensures forall c, o :: c in chosen && o in ids && o !in chosen ==> NotAfter(t[c], t[o])
    decreases limit
  {
    if limit == 0 || ids == {} {
      chosen := {};
    } else {
      var first := First(t, ids);
      assert |ids - {first}| == |ids| - 1;
      var rest := Firsts(t, ids - {first}, limit - 1);
      chosen := {first} + rest;
    }
  }

  /** A claim is always possible, whatever the table holds. */
  lemma ClaimExists(t: Table, now: Time, maxPriority: int, skipped: set<Id>) returns (chosen: set<Id>)
    ensures Selected(t, now, maxPriority, skipped, chosen)
  {
    chosen := Firsts(t, EligibleIds(t, now, maxPriority, skipped), BATCH_SIZE);
  }
}

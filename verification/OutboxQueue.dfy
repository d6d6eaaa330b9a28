/**
 Queueing e-mails: the rolling limits per mailbox and per account, which are
 checked in the statement that writes the row.
 */
module OutboxQueue {
  import opened Options
  import opened OutboxTable
  import Templates

  const DAY: Time := 24 * HOUR
  const EMAILS_PER_ACCOUNT_PER_DAY: nat := 50
  const CHUNK := 500

  /** One message to enqueue; `mailbox` is the canonical form of its address. */
  datatype Outgoing = Outgoing(userId: Option<Id>, mailbox: string, template: string, securityNotification: bool)

  /** A queued row, as the limits see it. `bulk` records which of the two
      functions wrote it; nothing reads it. */
  datatype QueuedRow = QueuedRow(
    id: Id, userId: Option<Id>, mailbox: string, template: string, priority: int, createdAt: Time, bulk: bool)

  function RowOf(id: Id, email: Outgoing, now: Time, bulk: bool): QueuedRow {
    QueuedRow(id, email.userId, email.mailbox, email.template,
              Templates.PriorityOf(email.template, email.securityNotification), now, bulk)
  }

  // ----- counting ----------------------------------------------------------

  function CountIf(rows: seq<QueuedRow>, p: QueuedRow -> bool): nat {
    if rows == [] then 0
    else CountIf(rows[..|rows| - 1], p) + (if p(rows[|rows| - 1]) then 1 else 0)
  }

  function Keep(rows: seq<QueuedRow>, p: QueuedRow -> bool): seq<QueuedRow> {
    if rows == [] then []
    else Keep(rows[..|rows| - 1], p) + (if p(rows[|rows| - 1]) then [rows[|rows| - 1]] else [])
  }

  lemma {:induction false} CountGrows(rows: seq<QueuedRow>, p: QueuedRow -> bool, q: QueuedRow -> bool)
    requires forall r :: r in rows && p(r) ==> q(r)
    ensures CountIf(rows, p) <= CountIf(rows, q)
  {
    if rows != [] {
      CountGrows(rows[..|rows| - 1], p, q);
    }
  }

  lemma CountAppend(rows: seq<QueuedRow>, r: QueuedRow, p: QueuedRow -> bool)
    ensures CountIf(rows + [r], p) == CountIf(rows, p) + (if p(r) then 1 else 0)
  {
    assert (rows + [r])[..|rows|] == rows;
  }

  lemma {:induction false} CountKept(rows: seq<QueuedRow>, p: QueuedRow -> bool, q: QueuedRow -> bool)
    ensures CountIf(Keep(rows, q), p) <= CountIf(rows, p)
    ensures (forall r :: r in rows && p(r) ==> q(r)) ==> CountIf(Keep(rows, q), p) == CountIf(rows, p)
  {
    if rows != [] {
      var front, last := rows[..|rows| - 1], rows[|rows| - 1];
      CountKept(front, p, q);
      if q(last) {
        CountAppend(Keep(front, q), last, p);
      } else {
        assert Keep(rows, q) == Keep(front, q);
      }
    }
  }

  // ----- the two limits ----------------------------------------------------

  /** The rows of one mailbox and template created after `since`. */
  function ToMailbox(mailbox: string, template: string, since: Time): QueuedRow -> bool {
    (r: QueuedRow) => r.mailbox == mailbox && r.template == template && r.createdAt > since
  }

  /** The rows of one account, codes aside, created after `since`. */
  function OfAccount(userId: Id, since: Time): QueuedRow -> bool {
    (r: QueuedRow) => r.userId == Some(userId) && !Templates.IsCodeTemplate(r.template) && r.createdAt > since
  }

  /** Whether the insert finds the recipient and the account under their
      limits. */
  predicate Admits(rows: seq<QueuedRow>, r: QueuedRow) {
    var cap := Templates.RecipientDailyCap(r.template);
    && (cap.Some? ==> CountIf(rows, ToMailbox(r.mailbox, r.template, r.createdAt - DAY)) < cap.value)
    && (r.userId.Some? && !Templates.IsCodeTemplate(r.template) ==>
         CountIf(rows, OfAccount(r.userId.value, r.createdAt - DAY)) < EMAILS_PER_ACCOUNT_PER_DAY)
  }

  /** Every row not written in bulk was admitted by the rows before it. */
  predicate Admitted(rows: seq<QueuedRow>) {
    rows == [] ||
    var front, last := rows[..|rows| - 1], rows[|rows| - 1];
    Admitted(front) && (!last.bulk ==> Admits(front, last))
  }

  lemma AdmittedAppend(rows: seq<QueuedRow>, r: QueuedRow)
    requires Admitted(rows) && (r.bulk || Admits(rows, r))
    ensures Admitted(rows + [r])
  {
    assert (rows + [r])[..|rows|] == rows;
  }

  // ----- the limits, counted row by row ------------------------------------

  /** The places of some rows. */
  function Places(rows: seq<QueuedRow>, p: QueuedRow -> bool): set<nat> {
    set i: nat | i < |rows| && p(rows[i])
  }

  lemma {:induction false} CountIsSize(rows: seq<QueuedRow>, p: QueuedRow -> bool)
    ensures CountIf(rows, p) == |Places(rows, p)|
  {
    if rows == [] {
      assert Places(rows, p) == {};
    } else {
      var front, n := rows[..|rows| - 1], |rows| - 1;
      CountIsSize(front, p);
      assert Places(rows, p) == Places(front, p) + if p(rows[n]) then {n} else {};
    }
  }

  /** How many messages of a template a mailbox gets in a day. */
  function DailyLimit(template: string): nat {
    if template == "password_reset_code" || template == "reauth_code" then 20
    else if Templates.IsCodeTemplate(template) then 5
    else if template == "notification" then 30
    else 10
  }

  /** Bulk templates aside, the mailbox has had its messages of the template within
      24 hours. */
  predicate IsFull(rows: seq<QueuedRow>, mailbox: string, template: string, now: Time) {
    && template != "announcement" && template != "release_notes"
    && DailyLimit(template)
       <= |set i: nat | i < |rows| && rows[i].mailbox == mailbox && rows[i].template == template
                        && rows[i].createdAt + 24 * HOUR > now|
  }

  /** The account has caused 50 messages within 24 hours, codes aside. */
  predicate IsBusy(rows: seq<QueuedRow>, userId: Id, now: Time) {
    50 <= |set i: nat | i < |rows| && rows[i].userId == Some(userId) && !Templates.IsCodeTemplate(rows[i].template)
                        && rows[i].createdAt + 24 * HOUR > now|
  }

  /** A message is queued unless its mailbox is full, or it is no code and its account
      is busy. */
  lemma AdmitsUnlessFull(rows: seq<QueuedRow>, r: QueuedRow)
    ensures Admits(rows, r) <==>
      && !IsFull(rows, r.mailbox, r.template, r.createdAt)
      && !(r.userId.Some? && !Templates.IsCodeTemplate(r.template) && IsBusy(rows, r.userId.value, r.createdAt))
  {
    var mailbox := ToMailbox(r.mailbox, r.template, r.createdAt - DAY);
    CountIsSize(rows, mailbox);
    assert Places(rows, mailbox) ==
      set i: nat | i < |rows| && rows[i].mailbox == r.mailbox && rows[i].template == r.template
                   && rows[i].createdAt + 24 * HOUR > r.createdAt;
    if r.userId.Some? {
      var account := OfAccount(r.userId.value, r.createdAt - DAY);
      CountIsSize(rows, account);
      assert Places(rows, account) ==
        set i: nat | i < |rows| && rows[i].userId == r.userId && !Templates.IsCodeTemplate(rows[i].template)
                     && rows[i].createdAt + 24 * HOUR > r.createdAt;
    }
    LimitsAre(r.template);
  }

  lemma LimitsAre(template: string)
    ensures Templates.RecipientDailyCap(template) ==
      if template == "announcement" || template == "release_notes" then None else Some(DailyLimit(template))
  {}

  /** The row is this message's own. */
  predicate IsRowFor(row: QueuedRow, id: Id, email: Outgoing, now: Time) {
    && row.id == id && row.createdAt == now
    && row.userId == email.userId && row.mailbox == email.mailbox && row.template == email.template
    && row.priority == Templates.PriorityOf(email.template, email.securityNotification)
  }

  /** After the rows that were there come those of the messages, one for each and in
      their order, created at the time of their chunk of 500. */
  ghost predicate HoldsAll(before: seq<QueuedRow>, after: seq<QueuedRow>, ids: seq<Id>, emails: seq<Outgoing>, nows: seq<Time>)
    requires |ids| == |emails| && |emails| <= 500 * |nows|
  {
    && before <= after && |after| == |before| + |emails|
    && forall i :: 0 <= i < |emails| ==> IsRowFor(after[|before| + i], ids[i], emails[i], nows[i / 500])
  }

  lemma AllInserted(before: seq<QueuedRow>, after: seq<QueuedRow>, ids: seq<Id>, emails: seq<Outgoing>, nows: seq<Time>)
    requires |ids| == |emails| && |emails| <= CHUNK * |nows| && after == before + BulkRows(ids, emails, nows)
    ensures HoldsAll(before, after, ids, emails, nows)
  {
    forall i | 0 <= i < |emails| ensures IsRowFor(after[|before| + i], ids[i], emails[i], nows[i / 500]) {
      BulkRowFor(ids, emails, nows, i);
    }
  }

  class Queue {
    var rows: seq<QueuedRow>

    ghost predicate Valid()
      reads this
    {
      Admitted(rows)
    }

    constructor ()
      ensures Valid() && rows == []
    {
      rows := [];
    }

    /** Queues one message, or drops it without a word when a limit is reached.
        `now` is read before the statement runs, so rows need not arrive in the
        order of their times. */
    method Enqueue(id: Id, email: Outgoing, now: Time) returns (queued: Option<Id>)
      requires Valid()
      modifies this
      ensures Valid()
      ensures queued == if Admits(old(rows), RowOf(id, email, now, false)) then Some(id) else None
      ensures rows == if queued.Some? then old(rows) + [RowOf(id, email, now, false)] else old(rows)
      ensures queued.Some? ==> queued == Some(id) && IsRowFor(rows[|rows| - 1], id, email, now)
      ensures queued.None? <==>
        IsFull(old(rows), email.mailbox, email.template, now)
        || (email.userId.Some? && !Templates.IsCodeTemplate(email.template) && IsBusy(old(rows), email.userId.value, now))
    {
      AdmitsUnlessFull(rows, RowOf(id, email, now, false));

      var row := RowOf(id, email, now, false);
      if Admits(rows, row) {
        AdmittedAppend(rows, row);
        rows := rows + [row];
        return Some(id);
      }
      return None;
    }

    /** Queues many messages without any limit, 500 to a statement. `nows[c]` is
        the time read for chunk `c`. */
    method EnqueueMany(ids: seq<Id>, emails: seq<Outgoing>, nows: seq<Time>) returns (inserted: nat)
      requires Valid() && |ids| == |emails| && |emails| <= CHUNK * |nows|
      modifies this
      ensures Valid()
      ensures inserted == |emails|
      ensures rows == old(rows) + BulkRows(ids, emails, nows)
      ensures HoldsAll(old(rows), rows, ids, emails, nows)
    {
      inserted := 0;
      var leftIds, left, leftNows := ids, emails, nows;
      while left != []
        invariant |leftIds| == |left| && |left| <= CHUNK * |leftNows| && inserted + |left| == |emails|
        invariant Valid() && rows + BulkRows(leftIds, left, leftNows) == old(rows) + BulkRows(ids, emails, nows)
        decreases |left|
      {
        var n := ChunkSize(left);
        var vector := BuildChunk(leftIds[..n], left[..n], leftNows[0]);
        BulkKeepsAdmitted(rows, vector);
        ghost var rest := BulkRows(leftIds[n..], left[n..], leftNows[1..]);
        assert rows + (vector + rest) == (rows + vector) + rest;
        rows := rows + vector;
        inserted := inserted + n;
        leftIds, left, leftNows := leftIds[n..], left[n..], leftNows[1..];
      }
      AllInserted(old(rows), rows, ids, emails, nows);
    }

    /** Clean-up, account deletion and withdrawn messages delete rows. */
    method DeleteExcept(keep: QueuedRow -> bool)
      requires Valid()
      modifies this
      ensures Valid()
      ensures rows == Keep(old(rows), keep)
    {
      DeletingKeepsAdmitted(rows, keep);
      rows := Keep(rows, keep);
    }
  }

  function ChunkSize(emails: seq<Outgoing>): nat {
    if |emails| < CHUNK then |emails| else CHUNK
  }

  function ChunkRows(ids: seq<Id>, emails: seq<Outgoing>, now: Time): seq<QueuedRow>
    requires |ids| == |emails|
  {
    seq(|emails|, i requires 0 <= i < |emails| => RowOf(ids[i], emails[i], now, true))
  }

  /** The rows of a bulk insert, each chunk created at its own time. */
  function BulkRows(ids: seq<Id>, emails: seq<Outgoing>, nows: seq<Time>): (rows: seq<QueuedRow>)
    requires |ids| == |emails| && |emails| <= CHUNK * |nows|
    ensures |rows| == |emails| && forall r :: r in rows ==> r.bulk
    decreases |emails|
  {
    if emails == [] then []
    else
      var n := ChunkSize(emails);
      ChunkRows(ids[..n], emails[..n], nows[0]) + BulkRows(ids[n..], emails[n..], nows[1..])
  }

  /** Every message has its own row, in order, created when its chunk was. */
  lemma {:induction false} BulkRowFor(ids: seq<Id>, emails: seq<Outgoing>, nows: seq<Time>, i: nat)
    requires |ids| == |emails| && |emails| <= CHUNK * |nows| && i < |emails|
    ensures IsRowFor(BulkRows(ids, emails, nows)[i], ids[i], emails[i], nows[i / 500])
    decreases |emails|
  {
    var n := ChunkSize(emails);
    if i >= n {
      BulkRowFor(ids[n..], emails[n..], nows[1..], i - n);
      assert nows[1..][(i - n) / 500] == nows[i / 500];
    }
  }

  /** The columns of one statement, pushed message by message. */
  method BuildChunk(ids: seq<Id>, emails: seq<Outgoing>, now: Time) returns (vector: seq<QueuedRow>)
    requires |ids| == |emails|
    ensures vector == ChunkRows(ids, emails, now)
  {
    vector := [];
    for i := 0 to |emails|
      invariant vector == ChunkRows(ids, emails, now)[..i]
    {
      vector := vector + [RowOf(ids[i], emails[i], now, true)];
    }
  }

  lemma {:induction false} BulkKeepsAdmitted(rows: seq<QueuedRow>, vector: seq<QueuedRow>)
    requires Admitted(rows) && forall r :: r in vector ==> r.bulk
    ensures Admitted(rows + vector)
  {
    if vector == [] {
      assert rows + vector == rows;
    } else {
      BulkKeepsAdmitted(rows, vector[..|vector| - 1]);
      AdmittedAppend(rows + vector[..|vector| - 1], vector[|vector| - 1]);
      assert rows + vector == rows + vector[..|vector| - 1] + [vector[|vector| - 1]];
    }
  }

  lemma {:induction false} DeletingKeepsAdmitted(rows: seq<QueuedRow>, keep: QueuedRow -> bool)
    requires Admitted(rows)
    ensures Admitted(Keep(rows, keep))
  {
    if rows != [] {
      var front, last := rows[..|rows| - 1], rows[|rows| - 1];
      DeletingKeepsAdmitted(front, keep);
      if keep(last) {
        if !last.bulk {
          CountKept(front, ToMailbox(last.mailbox, last.template, last.createdAt - DAY), keep);
          if last.userId.Some? {
            CountKept(front, OfAccount(last.userId.value, last.createdAt - DAY), keep);
          }
        }
        AdmittedAppend(Keep(front, keep), last);
      } else {
        assert Keep(rows, keep) == Keep(front, keep);
      }
    }
  }

  // ----- main results ------------------------------------------------------

  predicate InDay(r: QueuedRow, t: Time) {
    t - DAY < r.createdAt <= t
  }

  function ToMailboxInDay(mailbox: string, template: string, t: Time): QueuedRow -> bool {
    (r: QueuedRow) => !r.bulk && r.mailbox == mailbox && r.template == template && InDay(r, t)
  }

  function OfAccountInDay(userId: Id, t: Time): QueuedRow -> bool {
    (r: QueuedRow) => !r.bulk && r.userId == Some(userId) && !Templates.IsCodeTemplate(r.template) && InDay(r, t)
  }

  /** In every 24 hours, whatever was queued and deleted and in whatever order
      the times were read: a mailbox is sent no more messages of one template
      than its limit. */
  lemma {:induction false} MailboxLimitHolds(rows: seq<QueuedRow>, mailbox: string, template: string, t: Time)
    requires Admitted(rows) && Templates.RecipientDailyCap(template).Some?
    ensures CountIf(rows, ToMailboxInDay(mailbox, template, t)) <= Templates.RecipientDailyCap(template).value
  {
    if rows != [] {
      var front, last := rows[..|rows| - 1], rows[|rows| - 1];
      MailboxLimitHolds(front, mailbox, template, t);
      if ToMailboxInDay(mailbox, template, t)(last) {
        CountGrows(front, ToMailboxInDay(mailbox, template, t), ToMailbox(mailbox, template, last.createdAt - DAY));
      }
    }
  }

  /** In every 24 hours, an account causes no more than 50 messages, codes
      aside. */
  lemma {:induction false} AccountLimitHolds(rows: seq<QueuedRow>, userId: Id, t: Time)
    requires Admitted(rows)
    ensures CountIf(rows, OfAccountInDay(userId, t)) <= 50
  {
    if rows != [] {
      var front, last := rows[..|rows| - 1], rows[|rows| - 1];
      AccountLimitHolds(front, userId, t);
      if OfAccountInDay(userId, t)(last) {
        CountGrows(front, OfAccountInDay(userId, t), OfAccount(userId, last.createdAt - DAY));
      }
    }
  }

  function OfTemplate(template: string): QueuedRow -> bool {
    (r: QueuedRow) => r.template == template
  }

  /** Whether a code is queued depends on the rows of its own template only:
      other mail can neither block it nor let it through. */
  lemma CodesIgnoreOtherMail(rows: seq<QueuedRow>, others: seq<QueuedRow>, r: QueuedRow)
    requires Templates.IsCodeTemplate(r.template)
    requires Keep(rows, OfTemplate(r.template)) == Keep(others, OfTemplate(r.template))
    ensures Admits(rows, r) <==> Admits(others, r)
  {
    var p := ToMailbox(r.mailbox, r.template, r.createdAt - DAY);
    CountKept(rows, p, OfTemplate(r.template));
    CountKept(others, p, OfTemplate(r.template));
  }

  /** The bulk function is only called with the two templates that have no
      mailbox limit; then the limit holds for all rows, however written. */
  lemma MailboxLimitHoldsBesideBulk(rows: seq<QueuedRow>, mailbox: string, template: string, t: Time)
    requires Admitted(rows) && Templates.RecipientDailyCap(template).Some?
    requires forall r :: r in rows && r.bulk ==> Templates.RecipientDailyCap(r.template).None?
    ensures CountIf(rows, (r: QueuedRow) => r.mailbox == mailbox && r.template == template && InDay(r, t))
         <= Templates.RecipientDailyCap(template).value
  {
    MailboxLimitHolds(rows, mailbox, template, t);
    CountGrows(rows, (r: QueuedRow) => r.mailbox == mailbox && r.template == template && InDay(r, t),
               ToMailboxInDay(mailbox, template, t));
  }

  /** Without bulk rows, the account limit holds for all rows too. */
  lemma AccountLimitHoldsWithoutBulk(rows: seq<QueuedRow>, userId: Id, t: Time)
    requires Admitted(rows) && forall r :: r in rows ==> !r.bulk
    ensures CountIf(rows, (r: QueuedRow) => r.userId == Some(userId) && !Templates.IsCodeTemplate(r.template) && InDay(r, t))
         <= 50
  {
    AccountLimitHolds(rows, userId, t);
    CountGrows(rows, (r: QueuedRow) => r.userId == Some(userId) && !Templates.IsCodeTemplate(r.template) && InDay(r, t),
               OfAccountInDay(userId, t));
  }
}

/**
 A band's song suggestions: the row, the statements that change it, and the
 votes that count.
 */
module SuggestionRows {
  import opened Options
  import opened Collections

  type Id = nat
  type Time = int

  datatype Status = Open | Accepted | Rejected | Withdrawn

  datatype Row = Row(
    band: Id,
    setlist: Id,
    song: Id,
    suggestedBy: Option<Id>,
    votes: map<Id, int>,
    status: Status,
    resolvedBy: Option<Id>,
    resolvedAt: Option<Time>,
    note: Option<string>,
    updatedAt: Time)

  /** An open row says nothing of who closed it. */
  predicate Clean(row: Row) {
    row.status == Open && row.resolvedBy == None && row.resolvedAt == None && row.note == None
  }

  /** `... WHERE status = 'open'`: the row, if it was open, closed. */
  function Resolve(row: Row, status: Status, resolver: Option<Id>, note: Option<string>, now: Time): Option<Row> {
    if row.status == Open
    then Some(row.(status := status, resolvedBy := resolver, resolvedAt := Some(now), note := note, updatedAt := now))
    else None
  }

  /** `... WHERE status = 'accepted'`. */
  function Reopen(row: Row, now: Time): Row {
    if row.status == Accepted
    then row.(status := Open, resolvedBy := None, resolvedAt := None, note := None, updatedAt := now)
    else row
  }

  // ----- votes -------------------------------------------------------------

  /** Votes of `value` by current members other than the suggester. */
  function Voters(row: Row, members: set<Id>, value: int): set<Id> {
    set user | user in row.votes && row.votes[user] == value && user in members && Some(user) != row.suggestedBy
  }

  predicate ReachesAutoAccept(threshold: Option<int>, up: nat, down: nat) {
    threshold.Some? && threshold.value > 0 && up >= threshold.value && up > down
  }

  predicate Reaches(row: Row, members: set<Id>, threshold: Option<int>) {
    ReachesAutoAccept(threshold, |Voters(row, members, 1)|, |Voters(row, members, -1)|)
  }

  function Vote(row: Row, user: Id, value: int): Option<Row> {
    if row.status == Open then Some(row.(votes := row.votes[user := value])) else None
  }

  function RemoveVote(row: Row, user: Id): Option<Row> {
    if row.status == Open then Some(row.(votes := row.votes - {user})) else None
  }

  /** A suggester's own vote, and those of people who left, have no say. */
  lemma OwnVoteHasNoSay(row: Row, members: set<Id>, threshold: Option<int>, user: Id, value: int)
    requires row.status == Open && (row.suggestedBy == Some(user) || user !in members)
    ensures Reaches(Vote(row, user, value).value, members, threshold) <==> Reaches(row, members, threshold)
  {
    var voted := Vote(row, user, value).value;
    assert Voters(voted, members, 1) == Voters(row, members, 1);
    assert Voters(voted, members, -1) == Voters(row, members, -1);
  }

  // ----- what the votes decide ---------------------------------------------

  /** All of these are members other than the suggester, and voted `value`. */
  predicate AllVoted(row: Row, members: set<Id>, users: set<Id>, value: int) {
    forall user :: user in users ==>
      user in members && row.suggestedBy != Some(user) && user in row.votes && row.votes[user] == value
  }

  /** There are, among the others, at least `threshold` members who voted for the
      song, and more than any who voted against it. */
  ghost predicate IsCarried(row: Row, members: set<Id>, threshold: int) {
    exists ups: set<Id> ::
      && AllVoted(row, members, ups, 1)
      && |ups| >= threshold
      && forall downs: set<Id> :: AllVoted(row, members, downs, -1) ==> |downs| < |ups|
  }

  /** A suggestion is accepted on its votes if and only if the band has a positive
      threshold and that many others carried it. */
  lemma VotesDecide(row: Row, members: set<Id>, threshold: Option<int>)
    ensures Reaches(row, members, threshold) <==>
      threshold.Some? && threshold.value > 0 && IsCarried(row, members, threshold.value)
  {
    var up, down := Voters(row, members, 1), Voters(row, members, -1);
    assert AllVoted(row, members, up, 1) && AllVoted(row, members, down, -1);
    if Reaches(row, members, threshold) {
      forall downs: set<Id> | AllVoted(row, members, downs, -1) ensures |downs| < |up| {
        SubsetSize(downs, down);
      }
    }
    if threshold.Some? && IsCarried(row, members, threshold.value) {
      var ups: set<Id> :| AllVoted(row, members, ups, 1) && |ups| >= threshold.value
        && forall downs: set<Id> :: AllVoted(row, members, downs, -1) ==> |downs| < |ups|;
      SubsetSize(ups, up);
    }
  }

  /** A vote for the song never undoes that, and one against it never brings it
      about, whatever the voter said before. */
  lemma VotesPullTheirWay(row: Row, members: set<Id>, threshold: int, user: Id)
    requires row.status == Open
    ensures IsCarried(row, members, threshold) ==> IsCarried(row.(votes := row.votes[user := 1]), members, threshold)
    ensures IsCarried(row.(votes := row.votes[user := -1]), members, threshold) ==> IsCarried(row, members, threshold)
  {
    var up, down := row.(votes := row.votes[user := 1]), row.(votes := row.votes[user := -1]);
    if IsCarried(row, members, threshold) {
      MoreCarry(row, up, members, threshold);
    }
    if IsCarried(down, members, threshold) {
      MoreCarry(down, row, members, threshold);
    }
  }

  lemma MoreCarry(row: Row, row': Row, members: set<Id>, threshold: int)
    requires IsCarried(row, members, threshold) && row'.suggestedBy == row.suggestedBy
    requires forall user :: user in row.votes && row.votes[user] == 1 ==> user in row'.votes && row'.votes[user] == 1
    requires forall user :: user in row'.votes && row'.votes[user] == -1 ==> user in row.votes && row.votes[user] == -1
    ensures IsCarried(row', members, threshold)
  {
    var ups: set<Id> :| AllVoted(row, members, ups, 1) && |ups| >= threshold
      && forall downs: set<Id> :: AllVoted(row, members, downs, -1) ==> |downs| < |ups|;
    assert AllVoted(row', members, ups, 1);
    forall downs: set<Id> | AllVoted(row', members, downs, -1) ensures |downs| < |ups| {
      assert AllVoted(row, members, downs, -1);
    }
  }
}

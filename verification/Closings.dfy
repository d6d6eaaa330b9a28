/**
 What an attempt to close a suggestion comes to when nobody disturbs it: the first one
 does what it is for, whoever comes later changes nothing.
 */
module Closings {
  import opened Options
  import opened SuggestionRows
  import opened SuggestionProtocol
  import Scope = SetlistScope
  import Lib = BandLibrary
  import Undisturbed

  /** The steps are possible one after the other and lead from `w` to `w'`. */
  ghost predicate Leads(w: World, steps: seq<Step>, w': World)
    decreases |steps|
  {
    if steps == [] then w' == w
    else Enabled(w, steps[0]) && Leads(Apply(w, steps[0]), steps[1..], w')
  }

  lemma First(w: World, step: Step, steps: seq<Step>, w': World)
    requires Enabled(w, step) && Leads(Apply(w, step), steps, w')
    ensures Leads(w, [step] + steps, w')
  {
    assert ([step] + steps)[1..] == steps;
  }

  lemma {:induction false} Joined(w: World, a: seq<Step>, t: World, b: seq<Step>, w': World)
    requires Leads(w, a, t) && Leads(t, b, w')
    ensures Leads(w, a + b, w')
    decreases |a|
  {
    if a == [] {
      assert a + b == b;
    } else {
      Joined(Apply(w, a[0]), a[1..], t, b, w');
      assert (a + b)[1..] == a[1..] + b;
    }
  }

  /** Requests on setlists go on as they do without suggestions. */
  function OnAll(steps: seq<Scope.Step>): seq<Step> {
    if steps == [] then [] else [OnSetlists(steps[0])] + OnAll(steps[1..])
  }

  lemma {:induction false} Lifted(w: World, steps: seq<Scope.Step>, scope: Scope.State, r: Id)
    requires Undisturbed.Leads(w.scope, steps, scope) && Undisturbed.AreOf(steps, r)
    ensures Leads(w, OnAll(steps), w.(scope := scope))
    decreases |steps|
  {
    if steps != [] {
      var next := w.(scope := Scope.Apply(w.scope, steps[0]));
      assert Undisturbed.IsOwn(steps[0], r);
      Lifted(next, steps[1..], scope, r);
      First(w, OnSetlists(steps[0]), OnAll(steps[1..]), w.(scope := scope));
    }
  }

  /** The suggester is told, unless they did it themselves or the band's name could not
      be read. */
  function Told(id: Id, row: Row, status: Status, user: Option<Id>, named: bool): seq<Notice> {
    if named && row.suggestedBy.Some? && row.suggestedBy != user then [Notice(id, row.suggestedBy.value, status)] else []
  }

  predicate IsNew(w: World, c: Id, id: Id) {
    c !in w.closers && id in w.rows
  }

  lemma Framed(w: World, start: Step, middle: seq<Step>, t: World, end: Step)
    requires Enabled(w, start) && Leads(Apply(w, start), middle, t) && Enabled(t, end)
    ensures Leads(w, [start] + (middle + [end]), Apply(t, end))
  {
    First(t, end, [], Apply(t, end));
    assert [end] + [] == [end];
    Joined(Apply(w, start), middle, t, [end], Apply(t, end));
    First(w, start, middle + [end], Apply(t, end));
  }

  lemma TellsAtTheEnd(w: World, ask: Step, claim: seq<Step>, claimed: World, work: seq<Step>, worked: World, c: Id, named: bool)
      returns (steps: seq<Step>, w': World)
    requires Enabled(w, ask) && Leads(Apply(w, ask), claim, claimed) && Leads(claimed, work, worked)
    requires At(worked, c) && worked.closers[c].phase == Telling
    ensures Leads(w, [ask] + steps, w')
    ensures w'.rows == worked.rows && w'.scope == worked.scope
    ensures w'.notices == worked.notices + NoticeFor(worked.closers[c].row, RowOf(worked, c), worked.closers[c].intent, named)
  {
    Joined(Apply(w, ask), claim, claimed, work, worked);
    Framed(w, ask, claim + work, worked, Tell(c, named));
    steps, w' := claim + work + [Tell(c, named)], Apply(worked, Tell(c, named));
  }

  function RejectedAs(row: Row, user: Id, note: Option<string>, now: Time): Row {
    row.(status := Rejected, resolvedBy := Some(user), resolvedAt := Some(now), note := note, updatedAt := now)
  }

  lemma Rejects(w: World, c: Id, id: Id, user: Id, note: Option<string>, now: Time) returns (w': World)
    requires IsNew(w, c, id) && w.rows[id].status == Open
    ensures Leads(Apply(w, Ask(c, id, RejectBy(user, note))), [Load(c)] + ([Claim(c, now)] + []), w')
    ensures w' == w.(rows := w.rows[id := RejectedAs(w.rows[id], user, note, now)],
                     closers := w.closers[c := Closer(id, RejectBy(user, note), Telling)])
  {
    var asked := Apply(w, Ask(c, id, RejectBy(user, note)));
    var loaded := Apply(asked, Load(c));
    w' := Apply(loaded, Claim(c, now));
    First(loaded, Claim(c, now), [], w');
    First(asked, Load(c), [Claim(c, now)] + [], w');
  }

  /** A rejection of an open suggestion closes it and tells the suggester. */
  lemma RejectionEnds(w: World, c: Id, id: Id, user: Id, note: Option<string>, now: Time, named: bool)
      returns (steps: seq<Step>, w': World)
    requires IsNew(w, c, id) && w.rows[id].status == Open
    ensures Leads(w, [Ask(c, id, RejectBy(user, note))] + steps, w')
    ensures w'.rows == w.rows[id := RejectedAs(w.rows[id], user, note, now)]
    ensures w'.notices == w.notices + Told(id, w.rows[id], Rejected, Some(user), named)
    ensures w'.scope == w.scope
  {
    var rejected := Rejects(w, c, id, user, note, now);
    steps, w' := TellsAtTheEnd(w, Ask(c, id, RejectBy(user, note)), [Load(c)] + ([Claim(c, now)] + []), rejected, [], rejected, c, named);
  }

  /** The suggester takes an open suggestion back and nobody is told; anybody else is
      refused. */
  lemma WithdrawalEnds(w: World, c: Id, id: Id, user: Id, now: Time) returns (steps: seq<Step>, w': World)
    requires IsNew(w, c, id) && w.rows[id].status == Open
    ensures Leads(w, [Ask(c, id, WithdrawBy(user))] + ([Load(c)] + steps), w')
    ensures w'.rows == if w.rows[id].suggestedBy == Some(user)
      then w.rows[id := w.rows[id].(status := Withdrawn, resolvedBy := Some(user), resolvedAt := Some(now),
                                    note := None, updatedAt := now)]
      else w.rows
    ensures c in w'.closers && w'.closers[c].phase == if w.rows[id].suggestedBy == Some(user) then Finished else Refused
    ensures w'.notices == w.notices && w'.scope == w.scope
  {
    var asked := Apply(w, Ask(c, id, WithdrawBy(user)));
    var loaded := Apply(asked, Load(c));
    if w.rows[id].suggestedBy == Some(user) {
      steps, w' := [Claim(c, now)] + [], Apply(loaded, Claim(c, now));
      First(loaded, Claim(c, now), [], w');
    } else {
      steps, w' := [], loaded;
    }
    First(asked, Load(c), steps, w');
    First(w, Ask(c, id, WithdrawBy(user)), [Load(c)] + steps, w');
  }

  /** Once closed a suggestion is not closed again, by anybody. */
  lemma TooLate(w: World, c: Id, id: Id, intent: Intent, now: Time) returns (steps: seq<Step>, w': World)
    requires IsNew(w, c, id) && w.rows[id].status != Open && !intent.AutoAccept?
    ensures Leads(w, [Ask(c, id, intent)] + ([Load(c)] + steps), w')
    ensures w' == w.(closers := w.closers[c := Closer(id, intent, Refused)])
  {
    var asked := Apply(w, Ask(c, id, intent));
    var loaded := Apply(asked, Load(c));
    if loaded.closers[c].phase == Loaded {
      steps, w' := [Claim(c, now)] + [], Apply(loaded, Claim(c, now));
      First(loaded, Claim(c, now), [], w');
    } else {
      steps, w' := [], loaded;
    }
    First(asked, Load(c), steps, w');
    First(w, Ask(c, id, intent), [Load(c)] + steps, w');
  }

  // ----- an acceptance -----------------------------------------------------

  function AcceptedAs(row: Row, user: Id, note: Option<string>, now: Time): Row {
    row.(status := Accepted, resolvedBy := Some(user), resolvedAt := Some(now), note := note, updatedAt := now)
  }

  lemma Claims(w: World, c: Id, id: Id, user: Id, note: Option<string>, now: Time) returns (w': World)
    requires IsNew(w, c, id) && w.rows[id].status == Open && Lib.LiveSong(w.scope.lib, w.rows[id].song)
    ensures Leads(Apply(w, Ask(c, id, AcceptBy(user, note))), [Load(c)] + ([Claim(c, now)] + []), w')
    ensures w' == w.(rows := w.rows[id := AcceptedAs(w.rows[id], user, note, now)],
                     closers := w.closers[c := Closer(id, AcceptBy(user, note), Claimed(w.rows[id]))])
  {
    var asked := Apply(w, Ask(c, id, AcceptBy(user, note)));
    var loaded := Apply(asked, Load(c));
    w' := Apply(loaded, Claim(c, now));
    First(loaded, Claim(c, now), [], w');
    First(asked, Load(c), [Claim(c, now)] + [], w');
  }

  /** The request that was begun for it puts the song in. */
  lemma GoesOn(w: World, q: Id, newId: Id) returns (steps: seq<Step>, scope: Scope.State, song: Id)
    requires Scope.Inv(w.scope) && Scope.At(w.scope, q, Scope.Begun) && newId !in w.scope.lib.songs
    requires w.scope.requests[q].job.Accept? && Undisturbed.CanTake(w.scope.lib, w.scope.requests[q].job)
    ensures Leads(w, steps, w.(scope := scope)) && Scope.At(scope, q, Scope.Done(song))
    ensures Lib.HasSong(scope.lib, w.scope.requests[q].job.setlist, song)
    ensures Undisturbed.IsTheSong(w.scope, scope, w.scope.requests[q].job, song)
  {
    var own, end, itsSong := Undisturbed.RequestEnds(w.scope, q, newId);
    Lifted(w, own, end, q);
    steps, scope, song := OnAll(own), end, itsSong;
  }

  /** The claim's work: the song goes into the setlist. */
  lemma Works(w: World, c: Id, q: Id, newId: Id) returns (steps: seq<Step>, w': World, song: Id)
    requires Scope.Inv(w.scope) && At(w, c) && w.closers[c].phase.Claimed? && q !in w.scope.requests && newId !in w.scope.lib.songs
    requires Undisturbed.CanTake(w.scope.lib, JobOf(RowOf(w, c), w.closers[c].intent))
    ensures Leads(w, [StartWork(c, q)] + steps, w')
    ensures w' == w.(scope := w'.scope, closers := w.closers[c := w.closers[c].(phase := Telling)])
    ensures Lib.HasSong(w'.scope.lib, RowOf(w, c).setlist, song)
    ensures Undisturbed.IsTheSong(w.scope, w'.scope, JobOf(RowOf(w, c), w.closers[c].intent), song)
  {
    var begun := Apply(w, StartWork(c, q));
    Scope.StepKeepsInv(w.scope, Scope.Begin(q, JobOf(RowOf(w, c), w.closers[c].intent)));
    var own, scope, itsSong := GoesOn(begun, q, newId);
    var worked := begun.(scope := scope);
    Framed(w, StartWork(c, q), own, worked, EndWork(c, true));
    steps, w', song := own + [EndWork(c, true)], Apply(worked, EndWork(c, true)), itsSong;
  }

  /** An acceptance of an open suggestion whose song the setlist may take closes it,
      has the song in the setlist, and tells the suggester. */
  lemma AcceptanceEnds(w: World, c: Id, id: Id, user: Id, note: Option<string>, now: Time, named: bool, q: Id, newId: Id)
      returns (steps: seq<Step>, w': World, song: Id)
    requires Scope.Inv(w.scope) && IsNew(w, c, id) && w.rows[id].status == Open
    requires Undisturbed.CanTake(w.scope.lib, Scope.Accept(w.rows[id].setlist, w.rows[id].song, user, w.rows[id].band))
    requires q !in w.scope.requests && newId !in w.scope.lib.songs
    ensures Leads(w, [Ask(c, id, AcceptBy(user, note))] + steps, w')
    ensures w'.rows == w.rows[id := AcceptedAs(w.rows[id], user, note, now)]
    ensures w'.notices == w.notices + Told(id, w.rows[id], Accepted, Some(user), named)
    ensures Lib.HasSong(w'.scope.lib, w.rows[id].setlist, song)
    ensures song == w.rows[id].song || Lib.IsLiveCopy(w'.scope.lib, song, w.rows[id].band, w.rows[id].song)
  {
    var ask := Ask(c, id, AcceptBy(user, note));
    var claim := [Load(c)] + ([Claim(c, now)] + []);
    var claimed := Claims(w, c, id, user, note, now);
    var work, worked, itsSong := Works(claimed, c, q, newId);
    steps, w' := TellsAtTheEnd(w, ask, claim, claimed, [StartWork(c, q)] + work, worked, c, named);
    NoticeIsTold(id, w.rows[id], user, note, now, named);
    song := itsSong;
  }

  lemma NoticeIsTold(id: Id, row: Row, user: Id, note: Option<string>, now: Time, named: bool)
    ensures NoticeFor(id, AcceptedAs(row, user, note, now), AcceptBy(user, note), named) == Told(id, row, Accepted, Some(user), named)
  {}

  // ----- a vote ------------------------------------------------------------

  /** A vote is counted in, and asks for acceptance exactly if the votes then carry. */
  lemma VoteAsks(w: World, id: Id, user: Id, value: int, members: set<Id>, threshold: Option<int>, c: Id)
    requires IsNew(w, c, id) && w.rows[id].status == Open
    ensures Enabled(w, CastVote(id, user, value, members, threshold, c))
    ensures var w' := Apply(w, CastVote(id, user, value, members, threshold, c));
      && w'.rows == w.rows[id := w.rows[id].(votes := w.rows[id].votes[user := value])]
      && w'.notices == w.notices && w'.scope == w.scope
      && w'.closers == (if threshold.Some? && threshold.value > 0 && IsCarried(w'.rows[id], members, threshold.value)
                        then w.closers[c := Closer(id, AutoAccept(user), Asked)] else w.closers)
  {
    VotesDecide(w.rows[id].(votes := w.rows[id].votes[user := value]), members, threshold);
  }

  /** Taking a vote back leaves the suggestion as it was before, or before any vote of
      theirs. */
  lemma VoteTakenBack(w: World, id: Id, user: Id, value: int, members: set<Id>, threshold: Option<int>, c: Id)
    requires IsNew(w, c, id) && w.rows[id].status == Open
    ensures var w' := Apply(w, CastVote(id, user, value, members, threshold, c));
      && Enabled(w', DropVote(id, user))
      && Apply(w', DropVote(id, user)).rows == Apply(w, DropVote(id, user)).rows
    ensures user !in w.rows[id].votes ==> Apply(w, DropVote(id, user)).rows == w.rows
    ensures user !in Apply(w, DropVote(id, user)).rows[id].votes
  {
    var votes := w.rows[id].votes;
    assert votes[user := value] - {user} == votes - {user};
    assert user !in votes ==> votes - {user} == votes;
    assert w.rows[id := w.rows[id].(votes := votes)] == w.rows;
  }
}

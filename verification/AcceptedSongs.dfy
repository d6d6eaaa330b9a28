/**
 Where the song of an accepted suggestion is: between the claim and the end of
 its acceptance it was in the target setlist, unless the acceptance was never
 carried through nor taken back.
 */
module AcceptedSongs {
  import opened Options
  import opened SuggestionRows
  import opened SuggestionProtocol
  import opened Acceptance
  import Scope = SetlistScope
  import Lib = BandLibrary

  // ----- what a suggestion is about stays ----------------------------------

  /** Other than how far it has come, it is the same suggestion. */
  predicate SameSuggestion(row: Row, row': Row) {
    row'.band == row.band && row'.setlist == row.setlist && row'.song == row.song
  }

  lemma {:induction false} SuggestionStays(run: seq<World>, steps: seq<Step>, i: nat, j: nat, id: Id)
    requires IsRun(run, steps) && i <= j < |run| && id in run[i].rows
    ensures id in run[j].rows && SameSuggestion(run[i].rows[id], run[j].rows[id])
  {
    if i < j {
      SuggestionStays(run, steps, i, j - 1, id);
      assert run[j] == Apply(run[j - 1], steps[j - 1]);
      StepKeepsSuggestion(run[j - 1], steps[j - 1], id);
    }
  }

  lemma StepKeepsSuggestion(w: World, step: Step, id: Id)
    requires Enabled(w, step) && id in w.rows
    ensures id in Apply(w, step).rows && SameSuggestion(w.rows[id], Apply(w, step).rows[id])
  {
    match step
    case Claim(c, now) =>
    case Undo(c, ok, now) =>
    case CastVote(row, user, value, members, threshold, closer) =>
    case _ =>
  }

  // ----- how an attempt came where it is -----------------------------------

  /** `c` is what it was, maybe in another phase. */
  predicate SameAttempt(c: Closer, c': Closer) {
    c'.row == c.row && c'.intent == c.intent
  }

  predicate CarriedOut(c: Closer) {
    StatusOf(c.intent) == Accepted && (c.phase == Telling || c.phase == Finished)
  }

  /** An attempt reaches each phase of an acceptance by one step of its own. */
  lemma StepMoves(w: World, step: Step, c: Id)
    requires Enabled(w, step) && c in Apply(w, step).closers
    ensures var now := Apply(w, step).closers[c];
      && (now.phase.Claimed? && !(c in w.closers && w.closers[c] == now) ==> ClaimedBy(w, step, c, now))
      && (now.phase.Working? && !(c in w.closers && w.closers[c] == now) ==> SetToWork(w, step, c, now))
      && (CarriedOut(now) && !(c in w.closers && SameAttempt(w.closers[c], now) && CarriedOut(w.closers[c])) ==>
            && step == EndWork(c, true)
            && Enabled(w, step)
            && SameAttempt(w.closers[c], now))
  {
    match step
    case OnSetlists(s) =>
    case Suggest(row, fields) =>
    case CastVote(row, user, value, members, threshold, closer) =>
    case DropVote(row, user) =>
    case Ask(d, row, intent) =>
    case Load(d) =>
    case Claim(d, now) =>
    case StartWork(d, request) =>
    case EndWork(d, ok) =>
    case Undo(d, ok, now) =>
    case Tell(d, named) =>
  }

  /** The claim that made `c` what it is `now` found its suggestion open. */
  predicate ClaimedBy(w: World, step: Step, c: Id, now: Closer) {
    && step.Claim? && step.closer == c && now.phase.Claimed?
    && At(w, c) && SameAttempt(w.closers[c], now)
    && RowOf(w, c).status == Open
  }

  predicate SetToWork(w: World, step: Step, c: Id, now: Closer) {
    && now.phase.Working?
    && step == StartWork(c, now.phase.request)
    && c in w.closers && SameAttempt(w.closers[c], now) && w.closers[c].phase == Claimed(now.phase.was)
    && now.phase.request !in w.scope.requests
  }

  lemma {:induction false} ClaimedAt(run: seq<World>, steps: seq<Step>, i: nat, c: Id) returns (a: nat)
    requires IsRun(run, steps) && i < |run| && c in run[i].closers && run[i].closers[c].phase.Claimed?
    ensures a < i && ClaimedBy(run[a], steps[a], c, run[i].closers[c])
  {
    var now := run[i].closers[c];
    assert i > 0 && run[i] == Apply(run[i - 1], steps[i - 1]);
    if c in run[i - 1].closers && run[i - 1].closers[c] == now {
      a := ClaimedAt(run, steps, i - 1, c);
    } else {
      a := i - 1;
      StepMoves(run[a], steps[a], c);
    }
  }

  lemma {:induction false} SetToWorkAt(run: seq<World>, steps: seq<Step>, i: nat, c: Id) returns (s: nat)
    requires IsRun(run, steps) && i < |run| && c in run[i].closers && run[i].closers[c].phase.Working?
    ensures s < i && SetToWork(run[s], steps[s], c, run[i].closers[c])
  {
    var now := run[i].closers[c];
    assert i > 0 && run[i] == Apply(run[i - 1], steps[i - 1]);
    if c in run[i - 1].closers && run[i - 1].closers[c] == now {
      s := SetToWorkAt(run, steps, i - 1, c);
    } else {
      s := i - 1;
      StepMoves(run[s], steps[s], c);
    }
  }

  lemma {:induction false} CarriedOutAt(run: seq<World>, steps: seq<Step>, i: nat, c: Id) returns (e: nat)
    requires IsRun(run, steps) && i < |run| && c in run[i].closers && CarriedOut(run[i].closers[c])
    ensures e < i && steps[e] == EndWork(c, true) && Enabled(run[e], steps[e])
    ensures SameAttempt(run[e].closers[c], run[i].closers[c])
  {
    var now := run[i].closers[c];
    assert i > 0 && run[i] == Apply(run[i - 1], steps[i - 1]);
    if c in run[i - 1].closers && SameAttempt(run[i - 1].closers[c], now) && CarriedOut(run[i - 1].closers[c]) {
      e := CarriedOutAt(run, steps, i - 1, c);
    } else {
      e := i - 1;
      StepMoves(run[e], steps[e], c);
    }
  }

  // ----- how its request on the setlist came to its end --------------------

  predicate DoneIn(scope: Scope.State, r: Id) {
    r in scope.requests && scope.requests[r].phase.Done?
  }

  /** `r` did not change from `scope` to `scope'`, or has just put its song in. */
  predicate KeptOrLinked(scope: Scope.State, scope': Scope.State, r: Id) {
    && r in scope'.requests && scope'.requests[r].phase.Done?
    && ((r in scope.requests && scope.requests[r] == scope'.requests[r])
        || Lib.HasSong(scope'.lib, scope'.requests[r].job.setlist, scope'.requests[r].phase.song))
  }

  /** A request is done only once its song is in its setlist. */
  lemma ScopeStepEnds(s: Scope.State, step: Scope.Step, r: Id)
    requires Scope.Inv(s) && Scope.Enabled(s, step) && DoneIn(Scope.Apply(s, step), r)
    ensures KeptOrLinked(s, Scope.Apply(s, step), r)
  {
    if step.Link? && step.r == r {
      Scope.AddSongLinks(s.lib, s.requests[r].job.setlist, s.requests[r].phase.song, step.repertoire);
    }
  }

  lemma StepEnds(w: World, step: Step, r: Id)
    requires Scope.Inv(w.scope) && Enabled(w, step) && DoneIn(Apply(w, step).scope, r)
    ensures KeptOrLinked(w.scope, Apply(w, step).scope, r)
  {
    match step
    case OnSetlists(s) => ScopeStepEnds(w.scope, s, r);
    case StartWork(c, request) =>
    case _ =>
  }

  lemma LastStepEnds(run: seq<World>, steps: seq<Step>, e: nat, r: Id)
    requires IsRun(run, steps) && 0 < e < |run| && DoneIn(run[e].scope, r)
    ensures KeptOrLinked(run[e - 1].scope, run[e].scope, r)
  {
    RunKeepsInv(run, steps, e - 1);
    StepEnds(run[e - 1], steps[e - 1], r);
  }

  /** A request that is done, and was not there at `s`, had its song in its
      setlist at some moment after that. */
  lemma {:induction false} EndedAt(run: seq<World>, steps: seq<Step>, s: nat, e: nat, r: Id) returns (j: nat)
    requires IsRun(run, steps) && s <= e < |run| && r !in run[s].scope.requests && DoneIn(run[e].scope, r)
    ensures s < j <= e && r in run[j].scope.requests && run[j].scope.requests[r] == run[e].scope.requests[r]
    ensures Lib.HasSong(run[j].scope.lib, run[e].scope.requests[r].job.setlist, run[e].scope.requests[r].phase.song)
  {
    LastStepEnds(run, steps, e, r);
    if r in run[e - 1].scope.requests && run[e - 1].scope.requests[r] == run[e].scope.requests[r] {
      j := EndedAt(run, steps, s, e - 1, r);
    } else {
      j := e;
    }
  }

  // ----- main results ------------------------------------------------------

  /** The suggested song, or the band's copy of it. */
  predicate StandsFor(lib: Lib.Library, row: Row, song: Id) {
    song == row.song || Lib.IsCopy(lib, song, row.band, row.song)
  }

  /** An acceptance whose work is over: while `c` had its claim, `song` was in the
      target setlist. */
  lemma WorkLinked(run: seq<World>, steps: seq<Step>, e: nat, c: Id, id: Id) returns (a: nat, j: nat, song: Id)
    requires IsRun(run, steps) && e < |steps| && steps[e] == EndWork(c, true) && run[e].closers[c].row == id
    ensures a < j <= e && ClaimOf(run[a], steps[a], c, id) && id in run[e].rows
    ensures Lib.HasSong(run[j].scope.lib, run[e].rows[id].setlist, song) && StandsFor(run[j].scope.lib, run[e].rows[id], song)
  {
    var now := run[e].closers[c];
    RunKeepsInv(run, steps, e);
    assert CloserFits(run[e], now);
    var s := SetToWorkAt(run, steps, e, c);
    a := ClaimedAt(run, steps, s, c);
    var q := run[e].scope.requests[now.phase.request];
    j := EndedAt(run, steps, s, e, now.phase.request);
    song := q.phase.song;
    RunKeepsInv(run, steps, j);
    assert Scope.RequestFits(run[j].scope.lib, run[j].scope.seen, q);
    assert q.job == JobOf(run[e].rows[id], now.intent);
  }

  /** `c` takes `id`, until then open. */
  predicate ClaimOf(w: World, step: Step, c: Id, id: Id) {
    step.Claim? && step.closer == c && At(w, c) && w.closers[c].row == id && w.rows[id].status == Open
  }

  /** The attempt that holds `id` has been carried out: it is neither under way,
      nor dead on the way, nor stranded. */
  ghost predicate AtRest(w: World, id: Id) {
    forall c :: Holds(w, c, id) ==> !HasWas(w.closers[c].phase) && w.closers[c].phase != Stranded
  }

  /** An accepted suggestion at rest had its song, or the band's copy of it, put in
      or found in the target setlist by the very attempt that accepted it: it was
      there at a moment `j` after that attempt's claim `a`. */
  lemma AcceptedMeansLinked(run: seq<World>, steps: seq<Step>, i: nat, id: Id)
    returns (c: Id, a: nat, j: nat, song: Id)
    requires IsRun(run, steps) && i < |run| && id in run[i].rows
    requires run[i].rows[id].status == Accepted && AtRest(run[i], id)
    ensures Holds(run[i], c, id)
    ensures a < j <= i && ClaimOf(run[a], steps[a], c, id)
    ensures Lib.HasSong(run[j].scope.lib, run[i].rows[id].setlist, song) && StandsFor(run[j].scope.lib, run[i].rows[id], song)
  {
    RunKeepsInv(run, steps, i);
    c :| Holds(run[i], c, id);
    assert CloserFits(run[i], run[i].closers[c]);
    var e := CarriedOutAt(run, steps, i, c);
    a, j, song := WorkLinked(run, steps, e, c, id);
    SuggestionStays(run, steps, e, i, id);
  }

  // ----- a process that dies -----------------------------------------------

  /** Whose step it is, if it is one of an attempt's. */
  function Mover(step: Step): Option<Id> {
    match step
    case Load(c) => Some(c)
    case Claim(c, _) => Some(c)
    case StartWork(c, _) => Some(c)
    case EndWork(c, _) => Some(c)
    case Undo(c, _, _) => Some(c)
    case Tell(c, _) => Some(c)
    case _ => None
  }

  lemma OthersLeaveIt(w: World, step: Step, c: Id, id: Id)
    requires Inv(w) && Enabled(w, step) && Holds(w, c, id) && Mover(step) != Some(c)
    ensures Holds(Apply(w, step), c, id) && Apply(w, step).closers[c] == w.closers[c]
    ensures id in w.rows && id in Apply(w, step).rows && Apply(w, step).rows[id] == w.rows[id]
  {
    HolderClosed(w, c, id);
    match step
    case Undo(d, ok, now) => assert w.closers[d].row == id ==> Holds(w, d, id);
    case Claim(d, now) =>
    case CastVote(row, user, value, members, threshold, closer) =>
    case _ =>
  }

  /** A suggestion stays as it is while the attempt that holds it takes no step:
      nobody else ever opens, closes or changes it. One claimed by a process that
      dies before its work is over stays accepted for good. */
  lemma {:induction false} OnlyItsHolderMovesIt(run: seq<World>, steps: seq<Step>, i: nat, j: nat, c: Id, id: Id)
    requires IsRun(run, steps) && i <= j < |run| && Holds(run[i], c, id)
    requires forall k :: i <= k < j ==> Mover(steps[k]) != Some(c)
    ensures Holds(run[j], c, id) && run[j].closers[c] == run[i].closers[c]
    ensures id in run[i].rows && id in run[j].rows && run[j].rows[id] == run[i].rows[id] && run[j].rows[id].status != Open
  {
    if i < j {
      OnlyItsHolderMovesIt(run, steps, i, j - 1, c, id);
      RunKeepsInv(run, steps, j - 1);
      OthersLeaveIt(run[j - 1], steps[j - 1], c, id);
    } else {
      RunKeepsInv(run, steps, i);
      HolderClosed(run[i], c, id);
    }
  }
}

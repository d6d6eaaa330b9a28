/**
 What holds of suggestions however attempts to close them are interleaved: one
 closing wins, a failed acceptance leaves no trace, and a suggester hears once
 how it ended.
 */
module Acceptance {
  import opened Options
  import opened Induction
  import opened SuggestionRows
  import opened SuggestionProtocol
  import Scope = SetlistScope

  /** It closed the suggestion and did not open it again. */
  predicate Holding(phase: Phase) {
    !phase.Asked? && !phase.Loaded? && !phase.Refused? && !phase.Reopened?
  }

  predicate Holds(w: World, c: Id, id: Id) {
    c in w.closers && w.closers[c].row == id && Holding(w.closers[c].phase)
  }

  ghost predicate Held(w: World, id: Id) {
    exists c :: Holds(w, c, id)
  }

  predicate ClosedBy(row: Row, intent: Intent) {
    && row.status == StatusOf(intent)
    && row.resolvedBy == ResolverOf(intent)
    && row.note == NoteOf(intent)
    && row.resolvedAt.Some?
  }

  /** `row` is `was` but for what closing it wrote. */
  predicate ClosedFrom(was: Row, row: Row) {
    Clean(was) && row.status == Accepted
    && was == row.(status := Open, resolvedBy := None, resolvedAt := None, note := None, updatedAt := was.updatedAt)
  }

  ghost predicate CloserFits(w: World, c: Closer) {
    && c.row in w.rows
    && (Holding(c.phase) ==> ClosedBy(w.rows[c.row], c.intent))
    && match c.phase
       case Claimed(was) => ClosedFrom(was, w.rows[c.row])
       case Undoing(was) => ClosedFrom(was, w.rows[c.row])
       case Working(was, request) =>
         && ClosedFrom(was, w.rows[c.row])
         && request in w.scope.requests
         && w.scope.requests[request].job == JobOf(was, c.intent)
       case _ => true
  }

  ghost predicate ClosersFit(w: World) {
    forall c :: c in w.closers ==> CloserFits(w, w.closers[c])
  }

  ghost predicate OneHolder(w: World) {
    forall c, d, id :: Holds(w, c, id) && Holds(w, d, id) ==> c == d
  }

  ghost predicate RowsFit(w: World) {
    forall id :: id in w.rows ==> if w.rows[id].status == Open then Clean(w.rows[id]) else Held(w, id)
  }

  /** A notice is of a closing that is over. */
  ghost predicate NoticeFits(w: World, n: Notice) {
    && n.row in w.rows
    && n.status != Open
    && w.rows[n.row].status == n.status
    && w.rows[n.row].suggestedBy == Some(n.to)
    && w.rows[n.row].resolvedBy != Some(n.to)
    && forall c :: Holds(w, c, n.row) ==> w.closers[c].phase == Finished
  }

  ghost predicate NoticesFit(w: World) {
    && (forall k :: 0 <= k < |w.notices| ==> NoticeFits(w, w.notices[k]))
    && forall j, k :: 0 <= j < k < |w.notices| ==> w.notices[j].row != w.notices[k].row
  }

  ghost predicate Inv(w: World) {
    Scope.Inv(w.scope) && ClosersFit(w) && OneHolder(w) && RowsFit(w) && NoticesFit(w)
  }

  // ----- the setlists only move on -----------------------------------------

  ghost predicate Grows(s: Scope.State, s': Scope.State) {
    && Scope.Inv(s')
    && forall r :: r in s.requests ==> r in s'.requests && s'.requests[r].job == s.requests[r].job
  }

  lemma ScopeGrows(s: Scope.State, step: Scope.Step)
    requires Scope.Inv(s) && Scope.Enabled(s, step)
    ensures Grows(s, Scope.Apply(s, step))
  {
    Scope.StepKeepsInv(s, step);
  }

  /** Whoever holds a suggestion now held it before. */
  ghost predicate NoNewHolder(w: World, w': World) {
    forall c, id :: Holds(w', c, id) ==> Holds(w, c, id)
  }

  lemma SameHolders(w: World, w': World)
    requires OneHolder(w) && NoNewHolder(w, w')
    ensures OneHolder(w')
  {
    forall c, d, id | Holds(w', c, id) && Holds(w', d, id) ensures c == d {
      assert Holds(w, c, id) && Holds(w, d, id);
    }
  }

  lemma NoticeStays(w: World, w': World, n: Notice)
    requires NoticeFits(w, n) && NoNewHolder(w, w')
    requires n.row in w'.rows && w'.rows[n.row] == w.rows[n.row]
    requires forall c :: c in w.closers && w.closers[c].phase == Finished ==> c in w'.closers && w'.closers[c].phase == Finished
    ensures NoticeFits(w', n)
  {
    forall c | Holds(w', c, n.row) ensures w'.closers[c].phase == Finished {
      assert Holds(w, c, n.row);
    }
  }

  lemma ScopeStepKeeps(w: World, scope: Scope.State)
    requires Inv(w) && Grows(w.scope, scope)
    ensures Inv(w.(scope := scope))
  {
    var w' := w.(scope := scope);
    forall c | c in w'.closers ensures CloserFits(w', w'.closers[c]) {
      assert CloserFits(w, w.closers[c]);
    }
    forall id | id in w'.rows ensures if w'.rows[id].status == Open then Clean(w'.rows[id]) else Held(w', id) {
      if w.rows[id].status != Open {
        var c :| Holds(w, c, id);
        assert Holds(w', c, id);
      }
    }
    SameHolders(w, w');
    forall k | 0 <= k < |w'.notices| ensures NoticeFits(w', w'.notices[k]) {
      NoticeStays(w, w', w.notices[k]);
    }
  }

  // ----- one attempt moves on ----------------------------------------------

  /** `c` goes to another phase, and holds its suggestion as much as before. */
  lemma PhaseStepKeeps(w: World, c: Id, phase: Phase)
    requires Inv(w) && At(w, c) && w.closers[c].phase != Finished
    requires Holding(phase) == Holding(w.closers[c].phase)
    requires CloserFits(w, w.closers[c].(phase := phase))
    ensures Inv(ToPhase(w, c, phase))
  {
    var w' := ToPhase(w, c, phase);
    assert forall d, id :: Holds(w', d, id) <==> Holds(w, d, id);
    SameHolders(w, w');
    forall d | d in w'.closers ensures CloserFits(w', w'.closers[d]) {
      assert d != c ==> CloserFits(w, w.closers[d]);
    }
    forall id | id in w'.rows && w'.rows[id].status != Open ensures Held(w', id) {
      var d :| Holds(w, d, id);
      assert Holds(w', d, id);
    }
    forall k | 0 <= k < |w'.notices| ensures NoticeFits(w', w'.notices[k]) {
      NoticeStays(w, w', w.notices[k]);
    }
  }

  lemma HolderClosed(w: World, c: Id, id: Id)
    requires Inv(w) && Holds(w, c, id)
    ensures id in w.rows && w.rows[id].status != Open
  {
    assert CloserFits(w, w.closers[c]);
  }

  lemma NobodyHoldsOpen(w: World, id: Id)
    requires Inv(w) && id in w.rows && w.rows[id].status == Open
    ensures forall c :: !Holds(w, c, id)
    ensures forall k :: 0 <= k < |w.notices| ==> w.notices[k].row != id
  {
    forall c | Holds(w, c, id) ensures false {
      HolderClosed(w, c, id);
    }
    forall k | 0 <= k < |w.notices| ensures w.notices[k].row != id {
      assert NoticeFits(w, w.notices[k]);
    }
  }

  /** The row of an open suggestion changes and stays open, or is new. */
  lemma OpenRowKeeps(w: World, id: Id, row: Row)
    requires Inv(w) && Clean(row) && (id in w.rows ==> w.rows[id].status == Open)
    ensures Inv(WithRow(w, id, row))
  {
    var w' := WithRow(w, id, row);
    if id in w.rows {
      NobodyHoldsOpen(w, id);
    }
    assert forall d, i :: Holds(w', d, i) <==> Holds(w, d, i);
    forall c | c in w'.closers ensures CloserFits(w', w'.closers[c]) {
      assert CloserFits(w, w.closers[c]);
      assert w.closers[c].row == id ==> !Holds(w, c, id);
    }
    SameHolders(w, w');
    forall i | i in w'.rows && w'.rows[i].status != Open ensures Held(w', i) {
      var d :| Holds(w, d, i);
      assert Holds(w', d, i);
    }
    forall k | 0 <= k < |w'.notices| ensures NoticeFits(w', w'.notices[k]) {
      assert NoticeFits(w, w.notices[k]);
      NoticeStays(w, w', w.notices[k]);
    }
  }

  lemma NewCloserKeeps(w: World, c: Id, closer: Closer)
    requires Inv(w) && c !in w.closers && closer.row in w.rows && closer.phase == Asked
    ensures Inv(w.(closers := w.closers[c := closer]))
  {
    var w' := w.(closers := w.closers[c := closer]);
    assert forall d, id :: Holds(w', d, id) <==> Holds(w, d, id);
    SameHolders(w, w');
    forall d | d in w'.closers ensures CloserFits(w', w'.closers[d]) {
      assert d != c ==> CloserFits(w, w.closers[d]);
    }
    forall id | id in w'.rows && w'.rows[id].status != Open ensures Held(w', id) {
      var d :| Holds(w, d, id);
      assert Holds(w', d, id);
    }
    forall k | 0 <= k < |w'.notices| ensures NoticeFits(w', w'.notices[k]) {
      NoticeStays(w, w', w.notices[k]);
    }
  }

  lemma VoteKeeps(w: World, id: Id, user: Id, value: int, members: set<Id>, threshold: Option<int>, closer: Id)
    requires Inv(w) && Enabled(w, CastVote(id, user, value, members, threshold, closer))
    ensures Inv(Voting(w, id, user, value, members, threshold, closer))
  {
    var row := Vote(w.rows[id], user, value).value;
    OpenRowKeeps(w, id, row);
    if Reaches(row, members, threshold) {
      NewCloserKeeps(WithRow(w, id, row), closer, Closer(id, AutoAccept(user), Asked));
    }
  }

  /** The claim: of all that ask for an open suggestion, `c` now holds it alone. */
  lemma ClaimKeepsClosers(w: World, c: Id, now: Time)
    requires Inv(w) && Enabled(w, Claim(c, now)) && RowOf(w, c).status == Open
    ensures ClosersFit(Claiming(w, c, now))
  {
    var w' := Claiming(w, c, now);
    NobodyHoldsOpen(w, w.closers[c].row);
    forall d | d in w'.closers ensures CloserFits(w', w'.closers[d]) {
      assert d != c ==> CloserFits(w, w.closers[d]);
      assert d != c && w.closers[d].row == w.closers[c].row ==> !Holds(w, d, w.closers[c].row);
    }
  }

  lemma ClaimSparesNotice(w: World, w': World, c: Id, n: Notice)
    requires NoticeFits(w, n) && c in w.closers && w.closers[c].row != n.row
    requires forall d :: d in w'.closers && d != c ==> d in w.closers && w'.closers[d] == w.closers[d]
    requires c in w'.closers && w'.closers[c].row == w.closers[c].row
    requires n.row in w'.rows && w'.rows[n.row] == w.rows[n.row]
    ensures NoticeFits(w', n)
  {
    forall d | Holds(w', d, n.row) ensures w'.closers[d].phase == Finished {
      assert Holds(w, d, n.row);
    }
  }

  /** Taken by `c`, an open suggestion is closed. */
  lemma Taken(w: World, w': World, c: Id, id: Id)
    requires Inv(w) && ClosersFit(w') && w'.scope == w.scope && w'.notices == w.notices
    requires id in w.rows && id in w'.rows && w'.rows[id].status != Open && w'.rows == w.rows[id := w'.rows[id]]
    requires forall d, i :: Holds(w', d, i) <==> if i == id then d == c else Holds(w, d, i)
    requires c in w.closers && c in w'.closers && w.closers[c].row == id && w'.closers == w.closers[c := w'.closers[c]]
    requires w'.closers[c].row == id && forall k :: 0 <= k < |w.notices| ==> w.notices[k].row != id
    ensures Inv(w')
  {
    forall d, e, i | Holds(w', d, i) && Holds(w', e, i) ensures d == e {
      assert i != id ==> Holds(w, d, i) && Holds(w, e, i);
    }
    forall i | i in w'.rows && w'.rows[i].status != Open ensures Held(w', i) {
      if i == id {
        assert Holds(w', c, i);
      } else {
        var d :| Holds(w, d, i);
        assert Holds(w', d, i);
      }
    }
    forall k | 0 <= k < |w'.notices| ensures NoticeFits(w', w'.notices[k]) {
      ClaimSparesNotice(w, w', c, w.notices[k]);
    }
  }

  lemma ClaimKeeps(w: World, c: Id, now: Time)
    requires Inv(w) && Enabled(w, Claim(c, now))
    ensures Inv(Claiming(w, c, now))
  {
    var id := w.closers[c].row;
    if RowOf(w, c).status == Open {
      NobodyHoldsOpen(w, id);
      ClaimKeepsClosers(w, c, now);
      Taken(w, Claiming(w, c, now), c, id);
    } else {
      PhaseStepKeeps(w, c, Refused);
    }
  }

  lemma NoNoticeYet(w: World, c: Id)
    requires Inv(w) && At(w, c) && Holding(w.closers[c].phase) && w.closers[c].phase != Finished
    ensures forall k :: 0 <= k < |w.notices| ==> w.notices[k].row != w.closers[c].row
  {
    forall k | 0 <= k < |w.notices| ensures w.notices[k].row != w.closers[c].row {
      assert NoticeFits(w, w.notices[k]);
      assert Holds(w, c, w.closers[c].row);
    }
  }

  /** Opened again, the row is as the claim found it. */
  lemma ReopenRestores(w: World, c: Id, now: Time)
    requires Inv(w) && Enabled(w, Undo(c, true, now))
    ensures Reopen(RowOf(w, c), now) == w.closers[c].phase.was.(updatedAt := now)
  {
    assert CloserFits(w, w.closers[c]);
  }

  lemma UndoKeepsClosers(w: World, c: Id, now: Time)
    requires Inv(w) && Enabled(w, Undo(c, true, now))
    ensures ClosersFit(Apply(w, Undo(c, true, now)))
  {
    var w' := Apply(w, Undo(c, true, now));
    forall d | d in w'.closers ensures CloserFits(w', w'.closers[d]) {
      assert CloserFits(w, w.closers[d]);
      if w.closers[d].row == w.closers[c].row && d != c {
        assert Holds(w, c, w.closers[c].row) && !Holds(w, d, w.closers[c].row);
      }
    }
  }

  /** Let go of by its holder `c`, a suggestion is open again. */
  lemma Released(w: World, w': World, c: Id, id: Id)
    requires Inv(w) && ClosersFit(w') && w'.scope == w.scope && w'.notices == w.notices
    requires id in w.rows && id in w'.rows && Clean(w'.rows[id]) && w'.rows == w.rows[id := w'.rows[id]]
    requires forall d, i :: Holds(w', d, i) <==> Holds(w, d, i) && i != id
    requires c in w.closers && c in w'.closers && w.closers[c].row == id && w'.closers == w.closers[c := w'.closers[c]]
    requires w'.closers[c].row == id && forall k :: 0 <= k < |w.notices| ==> w.notices[k].row != id
    ensures Inv(w')
  {
    SameHolders(w, w');
    forall i | i in w'.rows && w'.rows[i].status != Open ensures Held(w', i) {
      var d :| Holds(w, d, i);
      assert Holds(w', d, i);
    }
    forall k | 0 <= k < |w'.notices| ensures NoticeFits(w', w'.notices[k]) {
      ClaimSparesNotice(w, w', c, w.notices[k]);
    }
  }

  lemma UndoKeeps(w: World, c: Id, now: Time)
    requires Inv(w) && Enabled(w, Undo(c, true, now))
    ensures Inv(Apply(w, Undo(c, true, now)))
  {
    var id := w.closers[c].row;
    var w' := Apply(w, Undo(c, true, now));
    ReopenRestores(w, c, now);
    NoNoticeYet(w, c);
    UndoKeepsClosers(w, c, now);
    assert forall d, i :: Holds(w', d, i) <==> Holds(w, d, i) && i != id by {
      assert Holds(w, c, id);
    }
    assert Clean(w'.rows[id]) by {
      assert CloserFits(w, w.closers[c]);
    }
    Released(w, w', c, id);
  }

  lemma TellKeeps(w: World, c: Id, named: bool)
    requires Inv(w) && Enabled(w, Tell(c, named))
    ensures Inv(Apply(w, Tell(c, named)))
  {
    var id := w.closers[c].row;
    assert CloserFits(w, w.closers[c]) && Holds(w, c, id);
    NoNoticeYet(w, c);
    PhaseStepKeeps(w, c, Finished);
    var told := ToPhase(w, c, Finished);
    ToldKeeps(w, told, c, NoticeFor(id, RowOf(w, c), w.closers[c].intent, named));
  }

  /** At most one notice, of a closing that is over, is added. */
  lemma ToldKeeps(w: World, told: World, c: Id, notices: seq<Notice>)
    requires Inv(told) && At(told, c) && told.closers[c].phase == Finished && told.notices == w.notices
    requires forall k :: 0 <= k < |w.notices| ==> w.notices[k].row != told.closers[c].row
    requires |notices| <= 1
    requires forall n :: n in notices ==>
      && n.row == told.closers[c].row && n.status != Open && n.status == RowOf(told, c).status
      && RowOf(told, c).suggestedBy == Some(n.to) && RowOf(told, c).resolvedBy != Some(n.to)
    ensures Inv(told.(notices := w.notices + notices))
  {
    var id := told.closers[c].row;
    var w' := told.(notices := w.notices + notices);
    assert forall d, i :: Holds(w', d, i) <==> Holds(told, d, i);
    SameHolders(told, w');
    forall d | d in w'.closers ensures CloserFits(w', w'.closers[d]) {
      assert CloserFits(told, told.closers[d]);
    }
    forall i | i in w'.rows && w'.rows[i].status != Open ensures Held(w', i) {
      var d :| Holds(told, d, i);
      assert Holds(w', d, i);
    }
    forall k | 0 <= k < |w'.notices| ensures NoticeFits(w', w'.notices[k]) {
      if k < |w.notices| {
        NoticeStays(told, w', w.notices[k]);
      } else {
        assert forall d :: Holds(w', d, id) ==> d == c by {
          assert Holds(w', c, id);
        }
      }
    }
  }

  lemma WorkKeeps(w: World, c: Id, request: Id)
    requires Inv(w) && Enabled(w, StartWork(c, request))
    ensures Inv(Apply(w, StartWork(c, request)))
  {
    var intent, row := w.closers[c].intent, RowOf(w, c);
    var begin := Scope.Begin(request, JobOf(row, intent));
    assert CloserFits(w, w.closers[c]);
    ScopeGrows(w.scope, begin);
    var begun := w.(scope := Scope.Apply(w.scope, begin));
    ScopeStepKeeps(w, begun.scope);
    PhaseStepKeeps(begun, c, Working(w.closers[c].phase.was, request));
  }

  lemma EndKeeps(w: World, c: Id, ok: bool)
    requires Inv(w) && Enabled(w, EndWork(c, ok))
    ensures Inv(Apply(w, EndWork(c, ok)))
  {
    var closer := w.closers[c];
    assert CloserFits(w, closer);
    PhaseStepKeeps(w, c, if ok then Telling else Undoing(closer.phase.was));
  }

  lemma StepKeepsInv(w: World, step: Step)
    requires Inv(w) && Enabled(w, step)
    ensures Inv(Apply(w, step))
  {
    match step
    case OnSetlists(s) =>
      ScopeGrows(w.scope, s);
      ScopeStepKeeps(w, Scope.Apply(w.scope, s));
    case Suggest(row, fields) => OpenRowKeeps(w, row, fields);
    case CastVote(row, user, value, members, threshold, closer) => VoteKeeps(w, row, user, value, members, threshold, closer);
    case DropVote(row, user) => OpenRowKeeps(w, row, RemoveVote(w.rows[row], user).value);
    case Ask(c, row, intent) => NewCloserKeeps(w, c, Closer(row, intent, Asked));
    case Load(c) => PhaseStepKeeps(w, c, AfterLoading(w.scope.lib, RowOf(w, c), w.closers[c].intent));
    case Claim(c, now) => ClaimKeeps(w, c, now);
    case StartWork(c, request) => WorkKeeps(w, c, request);
    case EndWork(c, ok) => EndKeeps(w, c, ok);
    case Undo(c, ok, now) =>
      if ok {
        UndoKeeps(w, c, now);
      } else {
        assert CloserFits(w, w.closers[c]);
        PhaseStepKeeps(w, c, Stranded);
      }
    case Tell(c, named) => TellKeeps(w, c, named);
  }

  lemma {:induction false} RunKeepsInv(run: seq<World>, steps: seq<Step>, i: nat)
    requires IsRun(run, steps) && i < |run|
    ensures Inv(run[i])
  {
    if i > 0 {
      RunKeepsInv(run, steps, i - 1);
      StepKeepsInv(run[i - 1], steps[i - 1]);
    }
  }

  // ----- main results ------------------------------------------------------

  /** Of all that try to close a suggestion exactly one wins, and the row says so:
      it is closed just when some attempt holds it, that attempt is the only one,
      and status, resolver and note are that attempt's. */
  lemma OneClosingWins(run: seq<World>, steps: seq<Step>, i: nat, id: Id)
    requires IsRun(run, steps) && i < |run| && id in run[i].rows
    ensures run[i].rows[id].status != Open <==> Held(run[i], id)
    ensures forall c, d :: Holds(run[i], c, id) && Holds(run[i], d, id) ==> c == d
    ensures forall c :: Holds(run[i], c, id) ==> ClosedBy(run[i].rows[id], run[i].closers[c].intent)
    ensures run[i].rows[id].status == Open ==> Clean(run[i].rows[id])
  {
    RunKeepsInv(run, steps, i);
    forall c | Holds(run[i], c, id) ensures ClosedBy(run[i].rows[id], run[i].closers[c].intent) {
      assert CloserFits(run[i], run[i].closers[c]);
    }
  }

  predicate HasWas(phase: Phase) {
    phase.Claimed? || phase.Working? || phase.Undoing?
  }

  /** Past its claim, `c` remembers the row as `was`. */
  predicate Remembers(w: World, c: Id, id: Id, was: Row) {
    && c in w.closers && w.closers[c].row == id
    && !w.closers[c].phase.Asked? && !w.closers[c].phase.Loaded?
    && (HasWas(w.closers[c].phase) ==> w.closers[c].phase.was == was)
  }

  lemma StepRemembers(w: World, step: Step, c: Id, id: Id, was: Row)
    requires Enabled(w, step) && Remembers(w, c, id, was)
    ensures Remembers(Apply(w, step), c, id, was)
  {
    match step
    case OnSetlists(s) =>
    case Suggest(row, fields) =>
    case CastVote(row, user, value, members, threshold, closer) =>
    case DropVote(row, user) =>
    case Ask(d, row, intent) =>
    case Load(d) =>
    case Claim(d, now) =>
    case StartWork(d, request) =>
    case EndWork(d, ok) =>
    case Undo(d, ok, now) =>
    case Tell(d, named) =>
  }

  lemma LastStepRemembers(run: seq<World>, steps: seq<Step>, j: nat, c: Id, id: Id, was: Row)
    requires IsRun(run, steps) && 0 < j < |run| && Remembers(run[j - 1], c, id, was)
    ensures Remembers(run[j], c, id, was)
  {
    StepRemembers(run[j - 1], steps[j - 1], c, id, was);
  }

  lemma RunRemembers(run: seq<World>, steps: seq<Step>, i: nat, j: nat, c: Id, id: Id, was: Row)
    requires IsRun(run, steps) && i <= j < |run| && Remembers(run[i], c, id, was)
    ensures Remembers(run[j], c, id, was)
  {
    var so := (k: nat) => k < |run| && Remembers(run[k], c, id, was);
    forall k: nat | i <= k < j && so(k) ensures so(k + 1) {
      LastStepRemembers(run, steps, k + 1, c, id, was);
    }
    Forwards(so, i, j);
    assert so(j);
  }

  /** An acceptance that failed and was undone leaves the suggestion just as the
      claim found it, votes and all, whatever happened in between; only when it
      was last touched differs. */
  lemma FailedAcceptanceLeavesNoTrace(run: seq<World>, steps: seq<Step>, i: nat, j: nat, c: Id, claimed: Time, undone: Time)
    requires IsRun(run, steps) && i < j < |steps|
    requires steps[i] == Claim(c, claimed) && steps[j] == Undo(c, true, undone)
    ensures c in run[i].closers && run[i].closers[c].row in run[i].rows && run[i].closers[c].row in run[j + 1].rows
    ensures var id := run[i].closers[c].row;
      run[j + 1].rows[id] == run[i].rows[id].(updatedAt := undone) && run[j + 1].rows[id].status == Open
  {
    RunKeepsInv(run, steps, j);
    var id := run[i].closers[c].row;
    assert Remembers(run[i + 1], c, id, run[i].rows[id]);
    RunRemembers(run, steps, i + 1, j, c, id, run[i].rows[id]);
    ReopenRestores(run[j], c, undone);
    assert CloserFits(run[j], run[j].closers[c]);
  }

  lemma {:induction false} NoticesAreKept(run: seq<World>, steps: seq<Step>, i: nat, j: nat)
    requires IsRun(run, steps) && i <= j < |run|
    ensures run[i].notices <= run[j].notices
  {
    if i < j {
      NoticesAreKept(run, steps, i, j - 1);
      assert run[j - 1].notices <= Apply(run[j - 1], steps[j - 1]).notices;
    }
  }

  /** A suggester is told at most once, never of what they did themselves, and
      what they are told is how it ended: the status stays that from then on. */
  lemma OneNoticeAndItIsFinal(run: seq<World>, steps: seq<Step>, i: nat, j: nat, k: nat)
    requires IsRun(run, steps) && i <= j < |run| && k < |run[i].notices|
    ensures var n := run[i].notices[k];
      && n.row in run[j].rows
      && run[j].rows[n.row].status == n.status
      && run[j].rows[n.row].suggestedBy == Some(n.to)
      && run[j].rows[n.row].resolvedBy != Some(n.to)
      && forall m :: 0 <= m < |run[j].notices| && run[j].notices[m].row == n.row ==> m == k
  {
    NoticesAreKept(run, steps, i, j);
    RunKeepsInv(run, steps, j);
    assert run[j].notices[k] == run[i].notices[k];
    assert NoticeFits(run[j], run[j].notices[k]);
  }
}

/**
 Why an acceptance needs its work or its undoing to get to an end: runs in which
 the claim cannot be undone, or its process dies, and the suggestion stays
 accepted with its song in no setlist.
 */
module StrandedAcceptance {
  import opened Options
  import opened Induction
  import opened SuggestionRows
  import opened SuggestionProtocol
  import opened Acceptance
  import opened AcceptedSongs
  import Scope = SetlistScope
  import Lib = BandLibrary

  const MINE := Row(1, 2, 0, Some(7), map[7 := 1], Open, None, None, None, 0)

  /** A run that can be taken further. */
  datatype Trace = Trace(worlds: seq<World>, steps: seq<Step>) {
    ghost predicate Ok() {
      IsRun(worlds, steps)
    }

    function Last(): World
      requires worlds != []
    {
      worlds[|worlds| - 1]
    }

    ghost function Then(step: Step): Trace
      requires worlds != [] && Enabled(Last(), step)
    {
      Trace(worlds + [Apply(Last(), step)], steps + [step])
    }

    lemma ThenIsOk(step: Step)
      requires Ok() && Enabled(Last(), step)
      ensures Then(step).Ok() && Then(step).Last() == Apply(Last(), step)
    {}
  }

  /** Nothing has been done on setlists but for adding a song. */
  predicate NoSetlists(scope: Scope.State) {
    scope.requests == map[] && scope.lib.setlists == map[]
  }

  /** Somebody asks for a suggested song to be accepted. */
  lemma AskedFor() returns (t: Trace)
    ensures t.Ok() && t.Last().rows == map[0 := MINE] && t.Last().notices == []
    ensures t.Last().closers == map[0 := Closer(0, AcceptBy(9, None), Asked)]
    ensures NoSetlists(t.Last().scope) && Lib.LiveSong(t.Last().scope.lib, 0)
  {
    var song := OnSetlists(Scope.NewSong(0, 7));
    t := Trace([INIT], []);
    t.ThenIsOk(song);
    t := t.Then(song);
    t.ThenIsOk(Suggest(0, MINE));
    t := t.Then(Suggest(0, MINE));
    var ask := Ask(0, 0, AcceptBy(9, None));
    t.ThenIsOk(ask);
    t := t.Then(ask);
  }

  /** A song is suggested and its acceptance claimed. */
  lemma Claimed() returns (t: Trace)
    ensures t.Ok() && 0 in t.Last().rows && t.Last().notices == []
    ensures t.Last().closers == map[0 := Closer(0, AcceptBy(9, None), Phase.Claimed(MINE))]
    ensures t.Last().rows[0] == MINE.(status := Accepted, resolvedBy := Some(9), resolvedAt := Some(10), updatedAt := 10)
    ensures NoSetlists(t.Last().scope)
  {
    t := AskedFor();
    t.ThenIsOk(Load(0));
    t := t.Then(Load(0));
    assert t.Last().closers[0].phase == Loaded;
    t.ThenIsOk(Claim(0, 10));
    t := t.Then(Claim(0, 10));
  }

  /** No setlist ever had a song. */
  ghost predicate NothingLinked(worlds: seq<World>) {
    forall j: nat, l, song :: j < |worlds| ==> !Lib.HasSong(worlds[j].scope.lib, l, song)
  }

  lemma StepKeepsSetlists(w: World, step: Step)
    requires Scope.Inv(w.scope) && Enabled(w, step) && Apply(w, step).scope.lib.setlists == map[]
    ensures w.scope.lib.setlists == map[]
  {
    match step {
      case OnSetlists(s) => Scope.StepKeepsLibrary(w.scope, s);
      case StartWork(c, request) =>
      case _ =>
    }
    assert forall l :: l in w.scope.lib.setlists ==> l in Apply(w, step).scope.lib.setlists;
  }

  lemma NoSetlistJustBefore(run: seq<World>, steps: seq<Step>, i: nat)
    requires IsRun(run, steps) && 0 < i < |run| && run[i].scope.lib.setlists == map[]
    ensures run[i - 1].scope.lib.setlists == map[]
  {
    RunKeepsInv(run, steps, i - 1);
    StepKeepsSetlists(run[i - 1], steps[i - 1]);
  }

  lemma NoSetlistNoLink(t: Trace)
    requires t.Ok() && t.Last().scope.lib.setlists == map[]
    ensures NothingLinked(t.worlds)
  {
    var none := (k: nat) => k < |t.worlds| && t.worlds[k].scope.lib.setlists == map[];
    forall k: nat | 0 < k <= |t.steps| && none(k) ensures none(k - 1) {
      NoSetlistJustBefore(t.worlds, t.steps, k);
    }
    forall j: nat, l, song | j < |t.worlds| ensures !Lib.HasSong(t.worlds[j].scope.lib, l, song) {
      Backwards(none, j, |t.steps|);
      assert none(j);
    }
  }

  /** The effect fails, and so does undoing the claim: nothing is under way any
      more, and the suggestion is accepted with its song in no setlist, ever. */
  lemma UndoingFails() returns (t: Trace)
    ensures t.Ok() && 0 in t.Last().rows && t.Last().rows[0].status == Accepted
    ensures forall c :: c in t.Last().closers ==> t.Last().closers[c].phase == Stranded
    ensures NothingLinked(t.worlds) && t.Last().notices == []
  {
    t := Claimed();
    t := Effect(t);
    t := Undone(t);
    NoSetlistNoLink(t);
  }

  /** A run that goes on from `t` without a step of the attempt `c`. */
  ghost predicate GoesOnWithout(t: Trace, run: seq<World>, steps: seq<Step>, c: Id) {
    && IsRun(run, steps) && t.worlds <= run
    && forall k :: |t.steps| <= k < |steps| ==> Mover(steps[k]) != Some(c)
  }

  predicate AcceptedBy(w: World, id: Id, user: Id) {
    id in w.rows && w.rows[id].status == Accepted && w.rows[id].resolvedBy == Some(user)
  }

  /** The process that accepts a suggestion dies right after its claim: whatever
      else ever happens, the suggestion stays accepted by it. */
  lemma ClaimDies() returns (t: Trace)
    ensures t.Ok() && NothingLinked(t.worlds)
    ensures forall run: seq<World>, steps: seq<Step> :: GoesOnWithout(t, run, steps, 0) ==> AcceptedBy(run[|run| - 1], 0, 9)
  {
    t := Claimed();
    NoSetlistNoLink(t);
    forall run: seq<World>, steps: seq<Step> | GoesOnWithout(t, run, steps, 0) ensures AcceptedBy(run[|run| - 1], 0, 9) {
      assert run[|t.steps|] == t.Last() && Holds(t.Last(), 0, 0);
      OnlyItsHolderMovesIt(run, steps, |t.steps|, |steps|, 0, 0);
    }
  }

  /** Its setlist is not found. */
  lemma Effect(s: Trace) returns (t: Trace)
    requires s.Ok() && s.Last().closers == map[0 := Closer(0, AcceptBy(9, None), Phase.Claimed(MINE))]
    requires 0 in s.Last().rows && s.Last().rows[0].(status := Open) == MINE.(resolvedBy := Some(9), resolvedAt := Some(10), updatedAt := 10)
    requires NoSetlists(s.Last().scope)
    ensures t.Ok() && t.Last().closers == map[0 := Closer(0, AcceptBy(9, None), Phase.Working(MINE, 0))]
    ensures t.Last().rows == s.Last().rows && t.Last().notices == s.Last().notices
    ensures 0 in t.Last().scope.requests && t.Last().scope.requests[0].phase == Scope.Failed
    ensures t.Last().scope.lib.setlists == map[]
  {
    t := s;
    t.ThenIsOk(StartWork(0, 0));
    t := t.Then(StartWork(0, 0));
    assert t.Last().scope.requests == map[0 := Scope.Request(Scope.Accept(2, 0, 9, 1), Scope.Begun)];
    var open := OnSetlists(Scope.Open(0));
    t.ThenIsOk(open);
    t := t.Then(open);
  }

  lemma Undone(s: Trace) returns (t: Trace)
    requires s.Ok() && s.Last().closers == map[0 := Closer(0, AcceptBy(9, None), Phase.Working(MINE, 0))]
    requires 0 in s.Last().rows && 0 in s.Last().scope.requests && s.Last().scope.requests[0].phase == Scope.Failed
    ensures t.Ok() && t.Last() == s.Last().(closers := map[0 := Closer(0, AcceptBy(9, None), Stranded)])
  {
    t := s;
    t.ThenIsOk(EndWork(0, false));
    t := t.Then(EndWork(0, false));
    t.ThenIsOk(Undo(0, false, 20));
    t := t.Then(Undo(0, false, 20));
  }
}

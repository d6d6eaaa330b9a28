/**
 The limiter of PDF rendering: what may be rendered at all, and how many renders
 run at once. A permit goes from the semaphore to the request that waited for it
 and on into the render, which alone gives it back.
 */
module PdfLimiter {
  import opened Options
  import opened Collections

  type Id = nat
  type Time = int

  const MAX_PDF_ITEMS := 200
  const MAX_SONGBOOK_CHARS := 250_000

  // ----- what fits ---------------------------------------------------------

  datatype Item = Song(lyrics: Option<string>) | Block | Break

  datatype Fit = Fits | TooManyItems | TooManyChars

  function CharsOf(item: Item): nat {
    if item.Song? && item.lyrics.Some? then |item.lyrics.value| else 0
  }

  function TotalChars(items: seq<Item>): nat {
    if items == [] then 0 else CharsOf(items[0]) + TotalChars(items[1..])
  }

  function EnsurePdfFits(items: seq<Item>, includeLyrics: bool): Fit {
    if |items| > MAX_PDF_ITEMS then TooManyItems
    else if includeLyrics && TotalChars(items) > MAX_SONGBOOK_CHARS then TooManyChars
    else Fits
  }

  lemma {:induction false} TotalSplits(a: seq<Item>, b: seq<Item>)
    ensures TotalChars(a + b) == TotalChars(a) + TotalChars(b)
  {
    if a == [] {
      assert a + b == b;
    } else {
      TotalSplits(a[1..], b);
      assert (a + b)[1..] == a[1..] + b;
    }
  }

  /** How much a songbook of these items prints: nothing for what is no song or has no
      lyrics. */
  lemma {:induction false} CharsAddUp(items: seq<Item>, lengths: seq<nat>)
    requires |lengths| == |items|
    requires forall i :: 0 <= i < |items| ==>
      lengths[i] == match items[i] case Song(Some(lyrics)) => |lyrics| case _ => 0
    ensures TotalChars(items) == Sum(lengths)
  {
    if items != [] {
      CharsAddUp(items[1..], lengths[1..]);
    }
  }

  function Sum(ns: seq<nat>): nat {
    if ns == [] then 0 else ns[0] + Sum(ns[1..])
  }

  /** Up to 200 items, and for a songbook up to 250 000 characters of lyrics; the items
      are counted first. */
  lemma FitsExactly(items: seq<Item>, lengths: seq<nat>, includeLyrics: bool)
    requires |lengths| == |items|
    requires forall i :: 0 <= i < |items| ==>
      lengths[i] == match items[i] case Song(Some(lyrics)) => |lyrics| case _ => 0
    ensures EnsurePdfFits(items, includeLyrics).TooManyItems? <==> |items| > 200
    ensures EnsurePdfFits(items, includeLyrics).TooManyChars? <==> |items| <= 200 && includeLyrics && Sum(lengths) > 250_000
  {
    CharsAddUp(items, lengths);
  }

  /** What fits still fits with an item left out or without the lyrics, and the
      order of the items has no say. */
  lemma LessFits(a: seq<Item>, item: Item, b: seq<Item>, includeLyrics: bool)
    requires EnsurePdfFits(a + [item] + b, includeLyrics).Fits?
    ensures EnsurePdfFits(a + b, includeLyrics).Fits?
    ensures EnsurePdfFits(a + [item] + b, false).Fits?
    ensures EnsurePdfFits(b + [item] + a, includeLyrics).Fits?
  {
    TotalSplits(a + [item], b);
    TotalSplits(a, [item]);
    TotalSplits(a, b);
    TotalSplits(b + [item], a);
    TotalSplits(b, [item]);
  }

  // ----- the protocol ------------------------------------------------------

  datatype Phase =
    | Waiting(since: Time)
    | Assigned
    | Attached
    | Answered(failed: bool)
    | Busy(since: Time, at: Time)
    | Aborted

  datatype Job = Running | Ended(panicked: bool)

  /** `taken` and `returned` list whose permits left the semaphore and came back. */
  datatype State = State(limit: nat, timeout: Time, clock: Time, free: int, requests: map<Id, Phase>, jobs: map<Id, Job>,
                         taken: seq<Id>, returned: seq<Id>)

  datatype Step =
    | Tick(clock: Time)
    | Arrive(r: Id)
    | Assign(r: Id)
    | Spawn(r: Id)
    | TimeOut(r: Id)
    | Abort(r: Id)
    | End(r: Id, panicked: bool)
    | Answer(r: Id)

  predicate At(s: State, r: Id, phase: Phase) {
    r in s.requests && s.requests[r] == phase
  }

  predicate Rendering(s: State, r: Id) {
    r in s.jobs && s.jobs[r].Running?
  }

  predicate Enabled(s: State, step: Step) {
    match step
    case Tick(clock) => clock >= s.clock
    case Arrive(r) => r !in s.requests
    case Assign(r) => r in s.requests && s.requests[r].Waiting? && s.free > 0
    case Spawn(r) => At(s, r, Assigned)
    case TimeOut(r) => r in s.requests && s.requests[r].Waiting? && s.clock >= s.requests[r].since + s.timeout
    case Abort(r) => r in s.requests && (s.requests[r].Waiting? || s.requests[r].Assigned? || s.requests[r].Attached?)
    case End(r, _) => Rendering(s, r)
    case Answer(r) => At(s, r, Attached) && r in s.jobs && s.jobs[r].Ended?
  }

  function To(s: State, r: Id, phase: Phase): State {
    s.(requests := s.requests[r := phase])
  }

  function Give(s: State, r: Id): State {
    s.(free := s.free + 1, returned := s.returned + [r])
  }

  function Apply(s: State, step: Step): State
    requires Enabled(s, step)
  {
    match step
    case Tick(clock) => s.(clock := clock)
    case Arrive(r) => To(s, r, Waiting(s.clock))
    case Assign(r) => To(s, r, Assigned).(free := s.free - 1, taken := s.taken + [r])
    case Spawn(r) => To(s, r, Attached).(jobs := s.jobs[r := Running])
    case TimeOut(r) => To(s, r, Busy(s.requests[r].since, s.clock))
    case Abort(r) => if s.requests[r].Assigned? then Give(To(s, r, Aborted), r) else To(s, r, Aborted)
    case End(r, panicked) => Give(s.(jobs := s.jobs[r := Ended(panicked)]), r)
    case Answer(r) => To(s, r, Answered(s.jobs[r].panicked))
  }

  predicate IsInit(s: State) {
    s.free == s.limit && s.requests == map[] && s.jobs == map[] && s.taken == [] && s.returned == []
  }

  ghost predicate IsRun(run: seq<State>, steps: seq<Step>) {
    && |run| == |steps| + 1
    && IsInit(run[0])
    && forall i :: 0 <= i < |steps| ==> Enabled(run[i], steps[i]) && run[i + 1] == Apply(run[i], steps[i])
  }

  // ----- what every step keeps ---------------------------------------------

  /** Who has a permit: who was assigned one and has not spawned, and the renders. */
  function Holders(s: State): set<Id> {
    (set r | r in s.requests && s.requests[r].Assigned?) + (set r | r in s.jobs && s.jobs[r].Running?)
  }

  function Renders(s: State): set<Id> {
    set r | r in s.jobs && s.jobs[r].Running?
  }

  predicate Counted(s: State) {
    s.free >= 0 && s.free + |Holders(s)| == s.limit
  }

  /** Whose permits are out: just the holders'. */
  ghost predicate Logged(taken: seq<Id>, returned: seq<Id>, holders: set<Id>) {
    && Distinct(taken) && Distinct(returned)
    && (forall r :: r in taken <==> r in holders || r in returned)
    && (forall r :: r in returned ==> r !in holders)
  }

  predicate InPlace(s: State, r: Id) {
    && (r in s.jobs ==> r in s.requests && !s.requests[r].Waiting? && !s.requests[r].Assigned? && r in s.taken)
    && (r in s.requests && s.requests[r].Waiting? ==> r !in s.taken)
    && (r in s.taken ==> r in s.requests)
    && (r in s.requests && s.requests[r].Assigned? ==> r in s.taken)
    && (r in s.requests && s.requests[r].Busy? ==>
          r !in s.taken && s.requests[r].at >= s.requests[r].since + s.timeout)
  }

  ghost predicate Placed(s: State) {
    forall r :: InPlace(s, r)
  }

  ghost predicate Inv(s: State) {
    Counted(s) && Logged(s.taken, s.returned, Holders(s)) && Placed(s)
  }

  /** What a step does to the permits: nothing, or one is taken, or one returned. */
  predicate Unmoved(s: State, s': State) {
    s'.free == s.free && s'.taken == s.taken && s'.returned == s.returned && Holders(s') == Holders(s)
  }

  predicate OneTaken(s: State, s': State, r: Id) {
    && r !in Holders(s) && r !in s.taken
    && s'.free == s.free - 1 >= 0 && s'.taken == s.taken + [r] && s'.returned == s.returned
    && Holders(s') == Holders(s) + {r}
  }

  predicate OneReturned(s: State, s': State, r: Id) {
    && r in Holders(s)
    && s'.free == s.free + 1 && s'.taken == s.taken && s'.returned == s.returned + [r]
    && Holders(s') == Holders(s) - {r}
  }

  predicate MovesPermit(s: State, s': State, r: Id) {
    s'.limit == s.limit && (Unmoved(s, s') || OneTaken(s, s', r) || OneReturned(s, s', r))
  }

  lemma StepMovesPermit(s: State, step: Step, r: Id)
    requires Placed(s) && Enabled(s, step) && (step.Tick? || step.r == r)
    ensures MovesPermit(s, Apply(s, step), r)
  {
    var s' := Apply(s, step);
    assert InPlace(s, r);
    match step
    case Tick(_) => assert Unmoved(s, s');
    case Arrive(_) => assert Unmoved(s, s');
    case Assign(_) => assert OneTaken(s, s', r);
    case Spawn(_) => assert Unmoved(s, s');
    case TimeOut(_) => assert Unmoved(s, s');
    case Abort(_) =>
      if s.requests[r].Assigned? {
        assert OneReturned(s, s', r);
      } else {
        assert Unmoved(s, s');
      }
    case End(_, _) => assert OneReturned(s, s', r);
    case Answer(_) => assert Unmoved(s, s');
  }

  lemma MoveKeepsCount(s: State, s': State, r: Id)
    requires Counted(s) && MovesPermit(s, s', r)
    ensures Counted(s')
  {}

  lemma MoveKeepsLog(s: State, s': State, r: Id)
    requires Logged(s.taken, s.returned, Holders(s)) && MovesPermit(s, s', r)
    ensures Logged(s'.taken, s'.returned, Holders(s'))
  {
    if OneTaken(s, s', r) {
      Takes(s.taken, s.returned, Holders(s), r);
    } else if OneReturned(s, s', r) {
      Returns(s.taken, s.returned, Holders(s), r);
    }
  }

  lemma Takes(taken: seq<Id>, returned: seq<Id>, holders: set<Id>, r: Id)
    requires Logged(taken, returned, holders) && r !in taken
    ensures Logged(taken + [r], returned, holders + {r})
  {}

  lemma Returns(taken: seq<Id>, returned: seq<Id>, holders: set<Id>, r: Id)
    requires Logged(taken, returned, holders) && r in holders
    ensures Logged(taken, returned + [r], holders - {r})
  {}

  lemma StepKeepsPlaces(s: State, step: Step)
    requires Placed(s) && Enabled(s, step)
    ensures Placed(Apply(s, step))
  {
    forall r ensures InPlace(Apply(s, step), r) {
      assert InPlace(s, r);
    }
  }

  lemma {:induction false} RunKeepsInv(run: seq<State>, steps: seq<Step>, i: nat)
    requires IsRun(run, steps) && i < |run|
    ensures Inv(run[i]) && run[i].limit == run[0].limit
  {
    if i == 0 {
      assert Holders(run[0]) == {};
    } else {
      RunKeepsInv(run, steps, i - 1);
      var r := if steps[i - 1].Tick? then 0 else steps[i - 1].r;
      StepMovesPermit(run[i - 1], steps[i - 1], r);
      MoveKeepsCount(run[i - 1], run[i], r);
      MoveKeepsLog(run[i - 1], run[i], r);
      StepKeepsPlaces(run[i - 1], steps[i - 1]);
    }
  }

  // ----- main results ------------------------------------------------------

  /** Free permits and those held make up the limit at every moment, so no more
      than that many renders run at once; and when none is held all are free. */
  lemma PermitsAreConserved(run: seq<State>, steps: seq<Step>, i: nat)
    requires IsRun(run, steps) && i < |run|
    ensures run[i].free + |Holders(run[i])| == run[0].limit
    ensures |Renders(run[i])| <= run[0].limit
    ensures Holders(run[i]) == {} ==> run[i].free == run[0].limit
  {
    RunKeepsInv(run, steps, i);
    assert Renders(run[i]) <= Holders(run[i]);
    SubsetSize(Renders(run[i]), Holders(run[i]));
  }

  /** A permit is taken at most once and comes back exactly once, when whoever
      holds it is done with it. */
  lemma EachPermitReturnsOnce(run: seq<State>, steps: seq<Step>, i: nat, r: Id)
    requires IsRun(run, steps) && i < |run|
    ensures Distinct(run[i].taken) && Distinct(run[i].returned)
    ensures r in run[i].returned <==> r in run[i].taken && r !in Holders(run[i])
  {
    RunKeepsInv(run, steps, i);
  }

  /** Dropping a request whose render has begun frees no slot: the render goes on
      and keeps its permit, until it ends. */
  lemma {:induction false} AbortFreesNoSlot(run: seq<State>, steps: seq<Step>, i: nat, j: nat, r: Id)
    requires IsRun(run, steps) && i <= j < |run| && Rendering(run[i], r)
    requires End(r, true) !in steps[i..j] && End(r, false) !in steps[i..j]
    ensures Rendering(run[j], r) && r !in run[j].returned && run[j].free < run[0].limit
    decreases j - i
  {
    RunKeepsInv(run, steps, j);
    if i < j {
      RunKeepsInv(run, steps, i);
      assert steps[i] == steps[i..j][0];
      assert steps[i + 1..j] == steps[i..j][1..];
      RenderGoesOn(run[i], steps[i], r);
      AbortFreesNoSlot(run, steps, i + 1, j, r);
    } else {
      assert r in Holders(run[j]);
      SubsetSize({r}, Holders(run[j]));
    }
  }

  lemma RenderGoesOn(s: State, step: Step, r: Id)
    requires Inv(s) && Enabled(s, step) && Rendering(s, r) && step != End(r, true) && step != End(r, false)
    ensures Rendering(Apply(s, step), r)
  {
    assert InPlace(s, r);
  }

  /** Given a slot `r` renders, ends and is answered, and the slot is free again. */
  predicate RunsThrough(s: State, r: Id, panicked: bool) {
    Enabled(s, Assign(r)) &&
    var begun := Apply(s, Assign(r));
    Enabled(begun, Spawn(r)) &&
    var spawned := Apply(begun, Spawn(r));
    !Enabled(spawned, Answer(r)) && Enabled(spawned, End(r, panicked)) &&
    var ended := Apply(spawned, End(r, panicked));
    && ended.free == s.free && Enabled(ended, Answer(r))
    && At(Apply(ended, Answer(r)), r, Answered(panicked))
  }

  /** Nothing else holds a request up: somebody waiting gets a slot if and only if fewer
      than the limit are held, and may be told that all are busy only once the whole time
      has passed. */
  lemma WaitingGoesOn(run: seq<State>, steps: seq<Step>, i: nat, r: Id, panicked: bool)
    requires IsRun(run, steps) && i < |run| && r in run[i].requests && run[i].requests[r].Waiting?
    ensures Enabled(run[i], Assign(r)) <==> |Holders(run[i])| < run[0].limit
    ensures Enabled(run[i], TimeOut(r)) <==> run[i].clock - run[i].requests[r].since >= run[i].timeout
    ensures |Holders(run[i])| < run[0].limit ==> RunsThrough(run[i], r, panicked)
  {
    RunKeepsInv(run, steps, i);
    assert InPlace(run[i], r);
  }

  /** Who is told that all slots are busy waited the whole time and has taken none. */
  lemma BusyAfterTheWholeWait(run: seq<State>, steps: seq<Step>, i: nat, r: Id)
    requires IsRun(run, steps) && i < |run| && r in run[i].requests && run[i].requests[r].Busy?
    ensures r !in run[i].taken && run[i].requests[r].at >= run[i].requests[r].since + run[i].timeout
  {
    RunKeepsInv(run, steps, i);
    assert InPlace(run[i], r);
  }
}

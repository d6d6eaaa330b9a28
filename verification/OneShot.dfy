/**
 A single-use secret under concurrent guesses: the challenge of a two-factor
 sign-in, and the code that resets a password. Any number of requests go through
 their statements interleaved; one that died stays where it was for good.
 */
module OneShot {
  import opened Options
  import opened Collections

  type Id = nat
  type Time = int

  const MAX_ATTEMPTS := 5

  /** `claim`, `consume` and `release` are one statement each. */
  datatype Token = Token(attempts: int, expiresAt: Time, consumed: bool)

  /** What the token is good for once consumed. */
  datatype Use = SignIn | ResetPassword

  datatype Phase =
    | Started
    | Found
    | Checking(claimed: int)
    | Wrong(claimed: int)
    | Right(claimed: int)
    | Strong(claimed: int)
    | Weak(claimed: int)
    | Won
    | Served
    | Refused

  /** `claimed` is the attempt's number, as its claim returned it. `served` lists the requests that got a session, or changed the password;
      `checks` and `wrong` count the codes compared, and those that did not match. */
  datatype State = State(use: Use, clock: Time, token: Token, requests: map<Id, Phase>,
                         served: seq<Id>, checks: nat, wrong: nat)

  datatype Step =
    | Tick(clock: Time)
    | Start(r: Id)
    | Find(r: Id)
    | Refuse(r: Id)
    | Claim(r: Id)
    | Check(r: Id, matches: bool)
    | Settle(r: Id)
    | Judge(r: Id, weak: bool)
    | Release(r: Id)
    | Consume(r: Id)
    | Serve(r: Id)
    | Expel

  // ----- the statements ----------------------------------------------------

  /** `... SET attempts = attempts + 1 WHERE consumed_at IS NULL AND attempts < 5
      AND expires_at > now RETURNING attempts`. */
  function ClaimAttempt(t: Token, now: Time): Option<Token> {
    if !t.consumed && t.attempts < MAX_ATTEMPTS && t.expiresAt > now then Some(t.(attempts := t.attempts + 1)) else None
  }

  function ReleaseAttempt(t: Token): Token {
    if t.consumed then t else t.(attempts := if t.attempts > 0 then t.attempts - 1 else 0)
  }

  function ConsumeToken(t: Token): Token {
    t.(consumed := true)
  }

  // ----- the protocol ------------------------------------------------------

  predicate At(s: State, r: Id, phase: Phase) {
    r in s.requests && s.requests[r] == phase
  }

  /** A sign-in asks for no password; a new password is judged first. */
  predicate MayConsume(use: Use, phase: Phase) {
    if use.SignIn? then phase.Right? else phase.Strong?
  }

  predicate Enabled(s: State, step: Step) {
    match step
    case Tick(clock) => clock >= s.clock
    case Start(r) => r !in s.requests
    case Find(r) => At(s, r, Started)
    case Refuse(r) => At(s, r, Found)
    case Claim(r) => At(s, r, Found)
    case Check(r, _) => r in s.requests && s.requests[r].Checking?
    case Settle(r) => r in s.requests && s.requests[r].Wrong?
    case Judge(r, _) => s.use.ResetPassword? && r in s.requests && s.requests[r].Right?
    case Release(r) => r in s.requests && s.requests[r].Weak?
    case Consume(r) => r in s.requests && MayConsume(s.use, s.requests[r])
    case Serve(r) => At(s, r, Won)
    case Expel => true
  }

  function To(s: State, r: Id, phase: Phase): State {
    s.(requests := s.requests[r := phase])
  }

  /** A consumed or expired token is refused at once; the reset code is looked for
      among the unconsumed ones and expires only at the claim. */
  function AfterFinding(s: State): Phase {
    if s.token.consumed || (s.use.SignIn? && s.token.expiresAt <= s.clock) then Refused else Found
  }

  function Apply(s: State, step: Step): State
    requires Enabled(s, step)
  {
    match step
    case Tick(clock) => s.(clock := clock)
    case Start(r) => To(s, r, Started)
    case Find(r) => To(s, r, AfterFinding(s))
    case Refuse(r) => To(s, r, Refused)
    case Claim(r) =>
      var claimed := ClaimAttempt(s.token, s.clock);
      if claimed.None? then To(s, r, Refused) else To(s, r, Checking(claimed.value.attempts)).(token := claimed.value)
    case Check(r, matches) =>
      To(s, r, if matches then Right(s.requests[r].claimed) else Wrong(s.requests[r].claimed))
        .(checks := s.checks + 1, wrong := s.wrong + if matches then 0 else 1)
    case Settle(r) =>
      To(s, r, Refused).(token := if s.requests[r].claimed >= MAX_ATTEMPTS then ConsumeToken(s.token) else s.token)
    case Judge(r, weak) => To(s, r, if weak then Weak(s.requests[r].claimed) else Strong(s.requests[r].claimed))
    case Release(r) => To(s, r, Refused).(token := ReleaseAttempt(s.token))
    case Consume(r) =>
      if s.token.consumed then To(s, r, Refused) else To(s, r, Won).(token := ConsumeToken(s.token))
    case Serve(r) => To(s, r, Served).(served := s.served + [r])
    case Expel => s.(token := ConsumeToken(s.token))
  }

  predicate IsInit(s: State) {
    s.token.attempts == 0 && !s.token.consumed && s.requests == map[] && s.served == [] && s.checks == 0 && s.wrong == 0
  }

  ghost predicate IsRun(run: seq<State>, steps: seq<Step>) {
    && |run| == |steps| + 1
    && IsInit(run[0])
    && forall i :: 0 <= i < |steps| ==> Enabled(run[i], steps[i]) && run[i + 1] == Apply(run[i], steps[i])
  }

  // ----- what every step keeps ---------------------------------------------

  predicate IsGuessing(phase: Phase) {
    phase.Checking?
  }

  /** Attempts claimed and not accounted for yet. */
  predicate IsOutstanding(phase: Phase) {
    phase.Checking? || phase.Right? || phase.Strong? || phase.Weak?
  }

  predicate IsWinner(phase: Phase) {
    phase.Won? || phase.Served?
  }

  function Guessing(requests: map<Id, Phase>): set<Id> {
    set r | r in requests && IsGuessing(requests[r])
  }

  function Outstanding(requests: map<Id, Phase>): set<Id> {
    set r | r in requests && IsOutstanding(requests[r])
  }

  /** It is, or was, the fifth attempt, and its outcome is still to come. */
  predicate MayExhaust(phase: Phase) {
    (IsOutstanding(phase) || phase.Wrong?) && phase.claimed >= MAX_ATTEMPTS
  }

  /** While the token lives, every attempt taken is a wrong code or one still on
      its way; and those on their way can only ever make five wrong ones. */
  predicate Accounted(s: State) {
    && 0 <= s.token.attempts <= MAX_ATTEMPTS
    && s.wrong + |Guessing(s.requests)| <= MAX_ATTEMPTS
    && (!s.token.consumed ==> s.token.attempts == s.wrong + |Outstanding(s.requests)|)
    && (s.use.SignIn? ==> s.checks + |Guessing(s.requests)| == s.token.attempts)
    && (s.use.SignIn? ==> forall r :: r in s.requests ==> !s.requests[r].Weak? && !s.requests[r].Strong?)
  }

  ghost predicate Exhausting(s: State) {
    !s.token.consumed && s.token.attempts >= MAX_ATTEMPTS ==> exists r :: r in s.requests && MayExhaust(s.requests[r])
  }

  predicate OneWinner(s: State) {
    && (forall r, q :: r in s.requests && q in s.requests && IsWinner(s.requests[r]) && IsWinner(s.requests[q]) ==> r == q)
    && (forall r :: r in s.requests && IsWinner(s.requests[r]) ==> s.token.consumed)
    && |s.served| <= 1
    && (forall r :: r in s.served ==> r in s.requests && s.requests[r].Served?)
  }

  ghost predicate Inv(s: State) {
    Accounted(s) && Exhausting(s) && OneWinner(s)
  }

  function One(b: bool): nat {
    if b then 1 else 0
  }

  /** One request goes from `was` to `phase`. */
  lemma Counted(requests: map<Id, Phase>, r: Id, was: Phase, phase: Phase)
    requires if r in requests then requests[r] == was else was == Started
    ensures |Guessing(requests[r := phase])| == |Guessing(requests)| - One(IsGuessing(was)) + One(IsGuessing(phase))
    ensures |Outstanding(requests[r := phase])|
         == |Outstanding(requests)| - One(IsOutstanding(was)) + One(IsOutstanding(phase))
    ensures |Guessing(requests)| <= |Outstanding(requests)|
  {
    Moved(Guessing(requests), Guessing(requests[r := phase]), r);
    Moved(Outstanding(requests), Outstanding(requests[r := phase]), r);
    SubsetSize(Guessing(requests), Outstanding(requests));
  }

  lemma Moved(before: set<Id>, after: set<Id>, r: Id)
    requires forall q :: q != r ==> (q in before <==> q in after)
    ensures |after| == |before| - One(r in before) + One(r in after)
  {
    assert before - {r} == after - {r};
    assert r in before ==> |before - {r}| == |before| - 1;
    assert r !in before ==> before - {r} == before;
    assert r in after ==> |after - {r}| == |after| - 1;
    assert r !in after ==> after - {r} == after;
  }

  lemma StepKeepsAccount(s: State, step: Step)
    requires Accounted(s) && Enabled(s, step)
    ensures Accounted(Apply(s, step))
  {
    if !step.Tick? && !step.Expel? {
      var s' := Apply(s, step);
      var was := if step.r in s.requests then s.requests[step.r] else Started;
      Counted(s.requests, step.r, was, s'.requests[step.r]);
    }
  }

  lemma StepKeepsExhausting(s: State, step: Step)
    requires Inv(s) && Enabled(s, step)
    ensures Exhausting(Apply(s, step))
  {
    var s' := Apply(s, step);
    if !s'.token.consumed && s'.token.attempts >= MAX_ATTEMPTS {
      if step.Claim? && s'.requests[step.r].Checking? {
        assert MayExhaust(s'.requests[step.r]);
      } else {
        var r :| r in s.requests && MayExhaust(s.requests[r]);
        assert MayExhaust(s'.requests[r]);
      }
    }
  }

  lemma StepKeepsWinner(s: State, step: Step)
    requires Inv(s) && Enabled(s, step)
    ensures OneWinner(Apply(s, step))
  {
    if s.served != [] {
      assert s.served[0] in s.served;
    }
  }

  lemma {:induction false} RunKeepsInv(run: seq<State>, steps: seq<Step>, i: nat)
    requires IsRun(run, steps) && i < |run|
    ensures Inv(run[i])
  {
    if i == 0 {
      assert Guessing(run[0].requests) == {} && Outstanding(run[0].requests) == {};
    } else {
      RunKeepsInv(run, steps, i - 1);
      StepKeepsAccount(run[i - 1], steps[i - 1]);
      StepKeepsExhausting(run[i - 1], steps[i - 1]);
      StepKeepsWinner(run[i - 1], steps[i - 1]);
    }
  }

  // ----- main results ------------------------------------------------------

  /** However requests interleave, five codes at most are checked against a
      challenge, and one session at most is issued for it: also when the last
      wrong attempt races a right one. */
  lemma ChallengeIsOneShot(run: seq<State>, steps: seq<Step>, i: nat)
    requires IsRun(run, steps) && i < |run| && run[i].use == SignIn
    ensures run[i].checks <= 5 && |run[i].served| <= 1
  {
    RunKeepsInv(run, steps, i);
  }

  /** A reset code changes the password once at most and takes five wrong guesses
      at most, however many right ones with weak passwords are given back. */
  lemma CodeIsOneShot(run: seq<State>, steps: seq<Step>, i: nat)
    requires IsRun(run, steps) && i < |run|
    ensures run[i].wrong <= 5 && |run[i].served| <= 1
  {
    RunKeepsInv(run, steps, i);
  }

  /** Nothing is on its way. */
  predicate AtRest(s: State) {
    forall r :: r in s.requests ==> !IsOutstanding(s.requests[r]) && !s.requests[r].Wrong?
  }

  /** At rest, an unconsumed token has lost an attempt for every wrong code and for
      nothing else, and has one left: weak passwords cost none, and five wrong
      codes always consume it. */
  lemma OnlyWrongCodesCost(run: seq<State>, steps: seq<Step>, i: nat)
    requires IsRun(run, steps) && i < |run| && AtRest(run[i]) && !run[i].token.consumed
    ensures run[i].token.attempts == run[i].wrong < 5
  {
    RunKeepsInv(run, steps, i);
    assert Outstanding(run[i].requests) == {};
  }

  // ----- what a request served has gone through ----------------------------

  /** Before `i` the request took an attempt of a secret that was unspent and not
      expired and had one left. */
  ghost predicate HasClaimed(run: seq<State>, steps: seq<Step>, i: nat, r: Id)
    requires IsRun(run, steps) && i < |run|
  {
    exists c: nat :: c < i && steps[c] == Claim(r)
                     && !run[c].token.consumed && run[c].token.attempts < 5 && run[c].token.expiresAt > run[c].clock
  }

  /** After that its code matched. */
  ghost predicate HasMatched(run: seq<State>, steps: seq<Step>, i: nat, r: Id)
    requires IsRun(run, steps) && i < |run|
  {
    exists k: nat :: k < i && steps[k] == Check(r, true) && HasClaimed(run, steps, k, r)
  }

  /** And after that its password was found good enough. */
  ghost predicate HasPassed(run: seq<State>, steps: seq<Step>, i: nat, r: Id)
    requires IsRun(run, steps) && i < |run|
  {
    exists j: nat :: j < i && steps[j] == Judge(r, false) && HasMatched(run, steps, j, r)
  }

  ghost predicate CameBy(run: seq<State>, steps: seq<Step>, i: nat, r: Id)
    requires IsRun(run, steps) && i < |run|
  {
    r in run[i].requests ==>
      match run[i].requests[r]
      case Checking(_) => HasClaimed(run, steps, i, r)
      case Right(_) => HasMatched(run, steps, i, r)
      case Strong(_) => HasPassed(run, steps, i, r)
      case Won => HasMatched(run, steps, i, r) && (run[i].use.ResetPassword? ==> HasPassed(run, steps, i, r))
      case Served => HasMatched(run, steps, i, r) && (run[i].use.ResetPassword? ==> HasPassed(run, steps, i, r))
      case _ => true
  }

  lemma Later(run: seq<State>, steps: seq<Step>, i: nat, r: Id)
    requires IsRun(run, steps) && 0 < i < |run|
    ensures HasClaimed(run, steps, i - 1, r) ==> HasClaimed(run, steps, i, r)
    ensures HasMatched(run, steps, i - 1, r) ==> HasMatched(run, steps, i, r)
    ensures HasPassed(run, steps, i - 1, r) ==> HasPassed(run, steps, i, r)
  {}

  lemma PassedHasMatched(run: seq<State>, steps: seq<Step>, i: nat, r: Id)
    requires IsRun(run, steps) && i < |run| && HasPassed(run, steps, i, r)
    ensures HasMatched(run, steps, i, r)
  {}

  lemma StepComesBy(run: seq<State>, steps: seq<Step>, i: nat, r: Id)
    requires IsRun(run, steps) && 0 < i < |run| && CameBy(run, steps, i - 1, r)
    ensures CameBy(run, steps, i, r)
  {
    Later(run, steps, i, r);
    assert run[i] == Apply(run[i - 1], steps[i - 1]);
    if HasPassed(run, steps, i, r) {
      PassedHasMatched(run, steps, i, r);
    }
  }

  lemma {:induction false} AllCameBy(run: seq<State>, steps: seq<Step>, i: nat, r: Id)
    requires IsRun(run, steps) && i < |run|
    ensures CameBy(run, steps, i, r)
  {
    if i > 0 {
      AllCameBy(run, steps, i - 1, r);
      StepComesBy(run, steps, i, r);
    }
  }

  /** Whoever got a session, or changed the password, took an attempt of the secret while
      it was unspent and not expired, then gave the right code, and for a password then
      one that was good enough. */
  lemma ServedWasRight(run: seq<State>, steps: seq<Step>, i: nat, r: Id)
    requires IsRun(run, steps) && i < |run| && r in run[i].served
    ensures HasMatched(run, steps, i, r)
    ensures run[i].use == ResetPassword ==> HasPassed(run, steps, i, r)
  {
    RunKeepsInv(run, steps, i);
    AllCameBy(run, steps, i, r);
  }

  // ----- a right code is enough --------------------------------------------

  /** The state after these steps, if each is possible where it comes. */
  function Played(s: State, steps: seq<Step>): Option<State>
    decreases |steps|
  {
    if steps == [] then Some(s)
    else if Enabled(s, steps[0]) then Played(Apply(s, steps[0]), steps[1..])
    else None
  }

  lemma PlayOn(s: State, step: Step, rest: seq<Step>)
    requires Enabled(s, step)
    ensures Played(s, [step] + rest) == Played(Apply(s, step), rest)
  {
    assert ([step] + rest)[1..] == rest;
  }

  /** A request that nobody disturbs, with a right code for an unspent secret that is not
      expired and has an attempt left, gets what the secret is for. */
  lemma RightCodeServes(s: State, r: Id)
    requires r !in s.requests && !s.token.consumed && s.token.attempts < 5 && s.token.expiresAt > s.clock
    ensures var rest := [Consume(r)] + ([Serve(r)] + []);
      var judged := if s.use == ResetPassword then [Judge(r, false)] + rest else rest;
      var end := Played(s, [Start(r)] + ([Find(r)] + ([Claim(r)] + ([Check(r, true)] + judged))));
      end.Some? && end.value.served == s.served + [r]
  {
    var rest := [Consume(r)] + ([Serve(r)] + []);
    var judged := if s.use == ResetPassword then [Judge(r, false)] + rest else rest;
    var started := Apply(s, Start(r));
    var found := Apply(started, Find(r));
    var claimed := Apply(found, Claim(r));
    var checked := Apply(claimed, Check(r, true));
    PlayOn(s, Start(r), [Find(r)] + ([Claim(r)] + ([Check(r, true)] + judged)));
    PlayOn(started, Find(r), [Claim(r)] + ([Check(r, true)] + judged));
    PlayOn(found, Claim(r), [Check(r, true)] + judged);
    PlayOn(claimed, Check(r, true), judged);
    var passed := if s.use == ResetPassword then Apply(checked, Judge(r, false)) else checked;
    if s.use == ResetPassword {
      PlayOn(checked, Judge(r, false), rest);
    }
    var won := Apply(passed, Consume(r));
    PlayOn(passed, Consume(r), [Serve(r)] + []);
    PlayOn(won, Serve(r), []);
  }
}

/**
 The two handlers that spend a single-use secret, one request at a time, on its
 row in place. What other parts of the account decide comes in as parameters.
 */
module Auth {
  import opened Options
  import opened OneShot

  const CODE_DAILY_FAILURE_CAP := 10

  datatype Outcome =
    | Session
    | PasswordChanged
    | InvalidCode(left: int)
    | CodeExpired
    | AccountLocked
    | NotAllowed
    | BadRequest
    | WeakPassword
    | TooManyAttempts

  /** What a sign-in finds before it claims an attempt: whether the password has
      changed since the challenge, the account is locked, it may sign in, and
      exactly one kind of code was sent. */
  datatype Gate = Gate(stale: bool, locked: bool, allowed: bool, wellFormed: bool) {
    predicate Open() {
      !stale && !locked && allowed && wellFormed
    }
  }

  class Secret {
    var token: Token
    var failures: int

    constructor (expiresAt: Time)
      ensures token == Token(0, expiresAt, false) && failures == 0
    {
      token := Token(0, expiresAt, false);
      failures := 0;
    }

    predicate Live(now: Time)
      reads this
    {
      !token.consumed && token.expiresAt > now && token.attempts < MAX_ATTEMPTS
    }

    method Claim(now: Time) returns (attempts: Option<int>)
      modifies this`token
      ensures attempts.Some? <==> !old(token).consumed && old(token).expiresAt > now && old(token).attempts < 5
      ensures token == if old(Live(now)) then old(token).(attempts := old(token).attempts + 1) else old(token)
      ensures attempts.Some? ==> attempts.value == token.attempts
    {
      var claimed := ClaimAttempt(token, now);
      if claimed.None? {
        return None;
      }
      token := claimed.value;
      return Some(token.attempts);
    }

    method Consume() returns (first: bool)
      modifies this`token
      ensures first <==> !old(token).consumed
      ensures token == old(token).(consumed := true)
    {
      first := !token.consumed;
      token := ConsumeToken(token);
    }

    /** The token after a wrong code: an attempt less, and with the fifth it is spent. */
    function AfterWrong(t: Token): Token {
      Token(t.attempts + 1, t.expiresAt, t.consumed || t.attempts + 1 >= MAX_ATTEMPTS)
    }

    /** `locks` is whether a wrong code locks the account; the clock may move
        between the look at the challenge and the claim. */
    method LoginTwoFactor(gate: Gate, matches: bool, locks: bool, now: Time, later: Time) returns (outcome: Outcome)
      requires now <= later
      modifies this`token
      ensures outcome.Session? <==>
        && !old(token).consumed && old(token).expiresAt > later && old(token).attempts < 5
        && !gate.stale && !gate.locked && gate.allowed && gate.wellFormed && matches
      ensures outcome.Session? ==> token == old(token).(attempts := old(token).attempts + 1, consumed := true)
      ensures old(Live(later)) && gate.Open() && !matches ==>
        && token.attempts == old(token).attempts + 1 && (token.consumed <==> token.attempts >= 5)
        && token.expiresAt == old(token).expiresAt
        && outcome == if locks then AccountLocked else InvalidCode(5 - token.attempts)
      ensures !old(Live(later)) || !gate.Open() ==> token == old(token)
      ensures old(token).consumed ==> outcome == InvalidCode(0)
      ensures !old(token).consumed && old(token).expiresAt <= now ==> outcome == CodeExpired
      ensures !old(token).consumed && old(token).expiresAt > now && !gate.Open() ==>
        && (gate.stale ==> outcome == InvalidCode(0))
        && (!gate.stale && gate.locked ==> outcome == AccountLocked)
        && (!gate.stale && !gate.locked && !gate.allowed ==> outcome == NotAllowed)
        && (!gate.stale && !gate.locked && gate.allowed ==> outcome == BadRequest)
      ensures !old(token).consumed && old(token).expiresAt > now && gate.Open() && !old(Live(later)) ==>
        outcome == if old(token).expiresAt <= later then CodeExpired else InvalidCode(0)
    {
      if token.consumed {
        return InvalidCode(0);
      }
      if token.expiresAt <= now {
        return CodeExpired;
      }
      if gate.stale {
        return InvalidCode(0);
      }
      if gate.locked {
        return AccountLocked;
      }
      if !gate.allowed {
        return NotAllowed;
      }
      if !gate.wellFormed {
        return BadRequest;
      }
      var attempts := Claim(later);
      if attempts.None? {
        return if token.expiresAt <= later then CodeExpired else InvalidCode(0);
      }
      if !matches {
        if attempts.value >= MAX_ATTEMPTS {
          var _ := Consume();
        }
        return if locks then AccountLocked else InvalidCode(MAX_ATTEMPTS - attempts.value);
      }
      var first := Consume();
      if !first {
        return InvalidCode(0);
      }
      return Session;
    }

    /** Whether a code may be taken; a wrong one counts against the day, too. */
    method CheckCode(dailyFailures: int, matches: bool, now: Time) returns (outcome: Option<Outcome>)
      modifies this
      ensures outcome.None? <==>
        && dailyFailures < 10 && matches
        && !old(token).consumed && old(token).expiresAt > now && old(token).attempts < 5
      ensures outcome.None? ==> token == old(token).(attempts := old(token).attempts + 1) && failures == old(failures)
      ensures dailyFailures >= CODE_DAILY_FAILURE_CAP ==> outcome == Some(TooManyAttempts)
      ensures dailyFailures < CODE_DAILY_FAILURE_CAP && !old(Live(now)) ==>
        outcome == Some(if !old(token).consumed && old(token).attempts < 5 then CodeExpired else InvalidCode(0))
      ensures dailyFailures >= CODE_DAILY_FAILURE_CAP || !old(Live(now)) ==> token == old(token) && failures == old(failures)
      ensures dailyFailures < CODE_DAILY_FAILURE_CAP && old(Live(now)) && !matches ==>
        && outcome == Some(InvalidCode(5 - token.attempts))
        && token == AfterWrong(old(token)) && failures == old(failures) + 1
    {
      if dailyFailures >= CODE_DAILY_FAILURE_CAP {
        return Some(TooManyAttempts);
      }
      if token.consumed {
        return Some(InvalidCode(0));
      }
      var attempts := Claim(now);
      if attempts.None? {
        return Some(if token.attempts < MAX_ATTEMPTS && token.expiresAt <= now then CodeExpired else InvalidCode(0));
      }
      if matches {
        return None;
      }
      failures := failures + 1;
      if attempts.value >= MAX_ATTEMPTS {
        var _ := Consume();
      }
      return Some(InvalidCode(MAX_ATTEMPTS - attempts.value));
    }

    /** The code first, the policy second: a weak password leaves the code as it
        was, and every way the code can fail gives the same answer. */
    method ResetPassword(dailyFailures: int, matches: bool, weak: bool, now: Time) returns (outcome: Outcome)
      requires token.attempts >= 0
      modifies this
      ensures outcome.PasswordChanged? || outcome.WeakPassword? || outcome == InvalidCode(0)
      ensures outcome.PasswordChanged? <==>
        && dailyFailures < 10 && matches && !weak
        && !old(token).consumed && old(token).expiresAt > now && old(token).attempts < 5
      ensures outcome.WeakPassword? <==> dailyFailures < CODE_DAILY_FAILURE_CAP && old(Live(now)) && matches && weak
      ensures outcome.PasswordChanged? ==> token.consumed && failures == old(failures)
      ensures outcome.WeakPassword? ==> token == old(token) && failures == old(failures)
      ensures outcome.InvalidCode? ==>
        if dailyFailures < CODE_DAILY_FAILURE_CAP && old(Live(now))
        then token == Token(old(token).attempts + 1, old(token).expiresAt, old(token).attempts + 1 >= 5)
             && failures == old(failures) + 1
        else token == old(token) && failures == old(failures)
    {
      var refused := CheckCode(dailyFailures, matches, now);
      if refused.Some? {
        return InvalidCode(0);
      }
      if weak {
        token := ReleaseAttempt(token);
        return WeakPassword;
      }
      var first := Consume();
      if !first {
        return InvalidCode(0);
      }
      return PasswordChanged;
    }
  }
}

/** The e-mail templates: which carry codes, and how urgent each one is. */
module Templates {
  import opened Options

  const SECURITY := 0
  const ACCOUNT := 3
  const NORMAL := 5
  const BULK := 9

  /** Every template the platform can render, by its outbox name. */
  const NAMES: set<string> := {
    "email_verification_code", "password_reset_code", "email_change_code", "password_changed",
    "two_factor_enabled", "two_factor_disabled", "email_changed_notice", "account_deleted",
    "notification", "announcement", "release_notes", "trial_ending", "subscription_changed",
    "subscription_confirmed", "paid_trial_ending", "renewal_reminder", "withdrawal_confirmed",
    "payment_disputed", "price_change", "welcome", "test_message", "reauth_code", "security_notice"
  }

  /** Templates whose payload holds a one-time code. */
  predicate IsSensitive(name: string) {
    name == "email_verification_code" || name == "password_reset_code"
    || name == "email_change_code" || name == "reauth_code"
  }

  predicate EndsWith(s: string, suffix: string) {
    |suffix| <= |s| && s[|s| - |suffix|..] == suffix
  }

  predicate IsCodeTemplate(name: string) {
    EndsWith(name, "_code")
  }

  predicate Contains(s: string, word: string) {
    |word| <= |s| && (s[..|word|] == word || (s != [] && Contains(s[1..], word)))
  }

  predicate HasBillingWord(name: string) {
    Contains(name, "trial") || Contains(name, "subscription") || Contains(name, "payment")
    || Contains(name, "billing") || Contains(name, "invoice") || Contains(name, "refund")
    || Contains(name, "withdraw")
  }

  /** The outbox priority a template's name gives it. */
  function PriorityOfName(name: string): int {
    if name in {"password_changed", "two_factor_enabled", "two_factor_disabled",
                "email_changed_notice", "account_deleted", "security_notice"} then SECURITY
    else if name in {"announcement", "release_notes"} then BULK
    else if name == "welcome" then ACCOUNT
    else if IsCodeTemplate(name) then SECURITY
    else if HasBillingWord(name) then ACCOUNT
    else NORMAL
  }

  /** An in-app notification copy ranks by its category instead. */
  function PriorityOf(name: string, securityNotification: bool): int {
    if name == "notification" then (if securityNotification then SECURITY else NORMAL)
    else PriorityOfName(name)
  }

  /** How many messages of a template one mailbox may be sent in a day; bulk
      mail has no such limit. */
  function RecipientDailyCap(name: string): Option<nat> {
    if name == "announcement" || name == "release_notes" then None
    else if name == "password_reset_code" || name == "reauth_code" then Some(20)
    else if IsCodeTemplate(name) then Some(5)
    else if name == "notification" then Some(30)
    else Some(10)
  }

  /** Whatever a code template is called, now or later, it goes out first. */
  lemma CodesRankAsSecurity(name: string, securityNotification: bool)
    requires IsCodeTemplate(name)
    ensures PriorityOf(name, securityNotification) == SECURITY
  {
    assert "notification"[|"notification"| - 1] == 'n';
    assert "announcement"[|"announcement"| - 1] == 't';
    assert "release_notes"[|"release_notes"| - 1] == 's';
    assert "welcome"[|"welcome"| - 4] == 'c' && "_code"[|"_code"| - 4] == 'c';
    assert "welcome"[|"welcome"| - 3] == 'o' && "welcome"[|"welcome"| - 2] == 'm';
    assert name[|name| - 2] == 'd' && name[|name| - 1] == 'e' by {
      assert name[|name| - 5..][3] == "_code"[3] && name[|name| - 5..][4] == "_code"[4];
    }
  }

  /** Of the templates that exist, the sensitive ones (whose payload the worker
      wipes) are exactly those whose name says they carry a code (which the
      queue caps and the claim puts first). */
  lemma SensitiveIsCode(name: string)
    requires name in NAMES
    ensures IsSensitive(name) <==> IsCodeTemplate(name)
  {
    if IsCodeTemplate(name) {
      EndsInDe(name);
    }
  }

  lemma EndsInDe(name: string)
    requires IsCodeTemplate(name)
    ensures |name| >= 2 && name[|name| - 2] == 'd' && name[|name| - 1] == 'e'
  {
    assert name[|name| - 5..][3] == 'd' && name[|name| - 5..][4] == 'e';
  }

  // ----- ranks, name by name -----------------------------------------------

  lemma {:induction false} FindsWord(before: string, word: string, after: string)
    ensures Contains(before + word + after, word)
  {
    var s := before + word + after;
    if before == [] {
      assert s[..|word|] == word;
    } else {
      FindsWord(before[1..], word, after);
      assert s[1..] == before[1..] + word + after;
    }
  }

  lemma {:induction false} WordFound(s: string, word: string) returns (before: string, after: string)
    requires Contains(s, word)
    ensures s == before + word + after
  {
    if s[..|word|] == word {
      before, after := [], s[|word|..];
    } else {
      before, after := WordFound(s[1..], word);
      before := [s[0]] + before;
    }
  }

  lemma ContainsMeans(s: string, word: string)
    ensures Contains(s, word) <==> Has(s, word)
  {
    if Contains(s, word) {
      var before, after := WordFound(s, word);
    } else if Has(s, word) {
      var before: string, after: string :| s == before + word + after;
      FindsWord(before, word, after);
    }
  }

  lemma EndsWithMeans(s: string, suffix: string)
    ensures EndsWith(s, suffix) <==> exists before: string :: s == before + suffix
  {
    if EndsWith(s, suffix) {
      assert s == s[..|s| - |suffix|] + suffix;
    }
  }

  /** What must not wait: news of one's password and sign-in, codes, and security
      notices copied from the application. */
  ghost predicate IsUrgent(name: string, securityNotification: bool) {
    || name in {"password_changed", "two_factor_enabled", "two_factor_disabled", "email_changed_notice",
                "account_deleted", "security_notice"}
    || (name == "notification" && securityNotification)
    || exists before: string :: name == before + "_code"
  }

  ghost predicate Has(name: string, word: string) {
    exists before: string, after: string :: name == before + word + after
  }

  ghost predicate IsAboutMoney(name: string) {
    || Has(name, "trial") || Has(name, "subscription") || Has(name, "payment") || Has(name, "billing")
    || Has(name, "invoice") || Has(name, "refund") || Has(name, "withdraw")
  }

  lemma MoneyWords(name: string)
    ensures HasBillingWord(name) <==> IsAboutMoney(name)
  {
    ContainsMeans(name, "trial");
    ContainsMeans(name, "subscription");
    ContainsMeans(name, "payment");
    ContainsMeans(name, "billing");
    ContainsMeans(name, "invoice");
    ContainsMeans(name, "refund");
    ContainsMeans(name, "withdraw");
  }

  /** The rank of every message there may ever be: 0, else 9 for the two bulk ones, else
      3 for a welcome and what is about money, else 5. */
  lemma RanksAre(name: string, securityNotification: bool)
    ensures IsUrgent(name, securityNotification) ==> PriorityOf(name, securityNotification) == 0
    ensures name == "announcement" || name == "release_notes" ==> PriorityOf(name, securityNotification) == 9
    ensures name == "notification" && !securityNotification ==> PriorityOf(name, securityNotification) == 5
    ensures !IsUrgent(name, securityNotification) && name !in {"announcement", "release_notes", "notification"} ==>
      PriorityOf(name, securityNotification) == if name == "welcome" || IsAboutMoney(name) then 3 else 5
  {
    EndsWithMeans(name, "_code");
    MoneyWords(name);
    if IsCodeTemplate(name) {
      CodesRankAsSecurity(name, securityNotification);
    }
  }
}

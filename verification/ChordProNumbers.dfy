/**
 Tempo, capo and duration through the export and back: the importer reads exactly the
 numbers of its own range, as they were, and no other.
 */
module ChordProNumbers {
  import opened Options
  import opened Text
  import opened ChordPro
  import opened ChordProReading
  import opened Normalization
  import opened ChordProImport

  // ----- how the importer reads numbers ------------------------------------

  predicate IsDigit(c: char) {
    '0' <= c <= '9'
  }

  predicate AllDigits(s: string) {
    forall c :: c in s ==> IsDigit(c)
  }

  function NumberOf(s: string): int {
    if s == [] then 0 else 10 * NumberOf(s[..|s| - 1]) + (s[|s| - 1] as int - 48)
  }

  /** Up to `most` digits, as a number between `low` and `high`. */
  function ParseNumber(s: string, most: nat, low: int, high: int): Option<int> {
    if s == [] || |s| > most || !AllDigits(s) then None
    else if low <= NumberOf(s) <= high then Some(NumberOf(s)) else None
  }

  predicate EndsWith(s: string, suffix: string) {
    |suffix| <= |s| && s[|s| - |suffix|..] == suffix
  }

  function ParseTempo(raw: string): Option<int> {
    var lower := Lower(Trim(raw));
    ParseNumber(Trim(if EndsWith(lower, "bpm") then lower[..|lower| - 3] else lower), 3, 1, 500)
  }

  function ParseCapo(raw: string): Option<int> {
    ParseNumber(Trim(raw), 2, 0, 11)
  }

  function ParseClock(minutes: string, seconds: string): Option<int> {
    if minutes == [] || |minutes| > 4 || !AllDigits(minutes) || |seconds| != 2 || !AllDigits(seconds)
       || NumberOf(seconds) >= 60
    then None
    else
      var total := NumberOf(minutes) * 60 + NumberOf(seconds);
      if 1 <= total <= 7200 then Some(total) else None
  }

  /** `m:ss`, or seconds alone, of one second to two hours. */
  function ParseDuration(raw: string): Option<int> {
    var value := Trim(raw);
    var minutes := TakeUntil(value, IsColon);
    if |minutes| == |value| then ParseNumber(value, 4, 1, 7200)
    else ParseClock(minutes, value[|minutes| + 1..])
  }

  // ----- digits ------------------------------------------------------------

  lemma {:induction false} DigitsBack(n: nat)
    ensures AllDigits(Digits(n)) && NumberOf(Digits(n)) == n
  {
    if n >= 10 {
      DigitsBack(n / 10);
      assert Digits(n)[..|Digits(n)| - 1] == Digits(n / 10);
    } else {
      assert Digits(n)[..0] == [];
    }
  }

  lemma DigitsFit(n: nat)
    ensures n < 100 ==> |Digits(n)| <= 2
    ensures 10 <= n < 100 ==> |Digits(n)| == 2
    ensures n < 10 ==> |Digits(n)| == 1
    ensures n < 1000 ==> |Digits(n)| <= 3
  {
    if n >= 10 {
      assert |Digits(n)| == |Digits(n / 10)| + 1;
      if n >= 100 {
        assert |Digits(n / 10)| == |Digits(n / 100)| + 1;
      }
    }
  }

  function Tens(k: nat): nat {
    if k == 0 then 1 else 10 * Tens(k - 1)
  }

  lemma {:induction false} FewDigits(n: nat, k: nat)
    requires k > 0 && n < Tens(k)
    ensures |Digits(n)| <= k
  {
    if n >= 10 {
      assert Tens(1) == 10 * Tens(0);
      FewDigits(n / 10, k - 1);
    }
  }

  /** A 32-bit integer. */
  type Int32 = n: int | -0x8000_0000 <= n < 0x8000_0000

  /** A number in decimals: a word that the export writes as it is. */
  lemma NumberWritten(n: Int32)
    ensures IsWord(Decimal(n)) && |Decimal(n)| <= 11
    ensures n >= 0 ==> Decimal(n) == Digits(n) && AllDigits(Digits(n)) && NumberOf(Digits(n)) == n
    ensures n < 0 ==> !AllDigits(Decimal(n))
  {
    var m: int := n;
    var size: nat := if m < 0 then -m else m;
    assert Tens(10) == 10_000_000_000;
    FewDigits(size, 10);
    DigitsBack(size);
    assert n < 0 ==> Decimal(n)[0] == '-' && Decimal(n)[0] in Decimal(n);
  }

  /** Characters that no step on the way touches. */
  predicate IsWord(s: string) {
    s != [] && forall c :: c in s ==> IsDigit(c) || c == ':' || c == '-'
  }

  lemma WordCleaned(s: string, nfc: Normalizer)
    requires IsNormalizer(nfc) && IsWord(s)
    ensures ReadBack(s, nfc) == s
  {
    PlainIsNormal(s, nfc);
    CleanStays(s);
    OneWord(s);
  }

  lemma WordWritten(s: string)
    requires IsWord(s) && |s| <= MAX_DIRECTIVE_VALUE
    ensures DirectiveValue(s) == s
  {
    assert Blanked(s, BreaksOut) == s by {
      forall i | 0 <= i < |s| ensures !BreaksOut(s[i]) {
        assert s[i] in s;
      }
    }
    OneWord(s);
  }

  lemma WordRead(s: string)
    requires IsWord(s)
    ensures Trim(s) == s && Lower(s) == s
  {
    assert s[0] in s && s[|s| - 1] in s;
    NothingToTrim(s);
    forall i | 0 <= i < |s| ensures Lower(s)[i] == s[i] {
      assert s[i] in s;
    }
  }

  lemma WordUntouched(s: string, nfc: Normalizer)
    requires IsNormalizer(nfc) && IsWord(s) && |s| <= MAX_DIRECTIVE_VALUE
    ensures DirectiveValue(s) == s && ReadBack(s, nfc) == s && Trim(s) == s && Lower(s) == s
  {
    WordWritten(s);
    WordCleaned(s, nfc);
    WordRead(s);
  }

  lemma OneWord(s: string)
    requires IsWord(s)
    ensures Spaced(s) == s
  {
    assert s[0] in s;
    assert TrimStart(s) == s;
    AllTaken(s);
    assert s[|s|..] == [];
    assert SplitWhitespace([]) == [];
    assert SplitWhitespace(s) == [s] + [];
  }

  lemma {:induction false} AllTaken(s: string)
    requires forall c :: c in s ==> !IsWhitespace(c)
    ensures TakeUntil(s, IsWhitespace) == s
  {
    if s != [] {
      assert s[0] in s;
      AllTaken(s[1..]);
      assert s == [s[0]] + s[1..];
    }
  }

  lemma NoSuffix(s: string)
    requires IsWord(s)
    ensures !EndsWith(s, "bpm")
  {
    assert s[|s| - 1] in s;
    assert |s| >= 3 ==> s[|s| - 3..][2] == s[|s| - 1];
  }

  lemma TempoReads(s: string, nfc: Normalizer)
    requires IsNormalizer(nfc) && IsWord(s) && |s| <= 11
    ensures ParseTempo(ReadBack(DirectiveValue(s), nfc)) == ParseNumber(s, 3, 1, 500)
    ensures ParseCapo(ReadBack(DirectiveValue(s), nfc)) == ParseNumber(s, 2, 0, 11)
  {
    WordUntouched(s, nfc);
    NoSuffix(s);
  }

  lemma NumberReads(n: Int32, most: nat, low: int, high: int)
    requires 0 <= low && high < Tens(most) && most > 0
    ensures ParseNumber(Decimal(n), most, low, high) == if low <= n <= high then Some(n) else None
  {
    NumberWritten(n);
    if low <= n <= high {
      FewDigits(n, most);
    }
  }

  // ----- main results ------------------------------------------------------

  /** Any tempo a song may hold: one the importer accepts comes back as it was, any
      other is not read at all. */
  lemma TempoBack(n: Int32, nfc: Normalizer)
    requires IsNormalizer(nfc)
    ensures ParseTempo(ReadBack(DirectiveValue(Decimal(n)), nfc)) == if 1 <= n <= 500 then Some(n) else None
  {
    NumberWritten(n);
    TempoReads(Decimal(n), nfc);
    assert Tens(3) == 1000;
    NumberReads(n, 3, 1, 500);
  }

  lemma CapoBack(n: Int32, nfc: Normalizer)
    requires IsNormalizer(nfc)
    ensures ParseCapo(ReadBack(DirectiveValue(Decimal(n)), nfc)) == if 0 <= n <= 11 then Some(n) else None
  {
    NumberWritten(n);
    TempoReads(Decimal(n), nfc);
    assert Tens(2) == 100;
    NumberReads(n, 2, 0, 11);
  }

  /** At least two digits. */
  function Padded(n: nat): string {
    (if n < 10 then "0" else "") + Digits(n)
  }

  lemma TwoDigits(n: nat)
    requires n < 60
    ensures |Padded(n)| == 2 && AllDigits(Padded(n)) && NumberOf(Padded(n)) == n
  {
    DigitsBack(n);
    DigitsFit(n);
    var s := Padded(n);
    if n < 10 {
      assert s[..1] == "0" && "0"[..0] == [];
      assert NumberOf("0") == 0;
    } else {
      assert s == Digits(n);
    }
  }

  lemma DurationSplits(minutes: string, seconds: string)
    requires AllDigits(minutes)
    ensures var s := minutes + ":" + seconds; TakeUntil(s, IsColon) == minutes && s[|minutes| + 1..] == seconds
  {
    TakeUntilAt(minutes, ':', seconds, IsColon);
    assert minutes + ":" + seconds == minutes + [':'] + seconds;
  }

  lemma DurationParses(value: string, minutes: string, seconds: string)
    requires Trim(value) == value && |minutes| < |value|
    requires TakeUntil(value, IsColon) == minutes && value[|minutes| + 1..] == seconds
    ensures ParseDuration(value) == ParseClock(minutes, seconds)
  {}

  lemma DurationWritten(n: int)
    requires n >= 0
    ensures FormatDuration(n) == Digits(n / 60) + ":" + Padded(n % 60)
  {}

  lemma DurationIsWord(minutes: string, seconds: string)
    requires AllDigits(minutes) && AllDigits(seconds)
    ensures IsWord(minutes + ":" + seconds)
  {}

  /** However it is read, a clock comes back as it was written. */
  lemma DurationReads(written: string, minutes: string, seconds: string, nfc: Normalizer)
    requires IsNormalizer(nfc) && written == minutes + ":" + seconds && |written| <= MAX_DIRECTIVE_VALUE
    requires AllDigits(minutes) && AllDigits(seconds)
    ensures ParseDuration(ReadBack(DirectiveValue(written), nfc)) == ParseClock(minutes, seconds)
  {
    DurationIsWord(minutes, seconds);
    WordUntouched(written, nfc);
    DurationSplits(minutes, seconds);
    DurationParses(written, minutes, seconds);
  }

  /** Two hours have few enough minutes. */
  lemma ClockParses(minutes: nat, seconds: nat)
    requires seconds < 60
    ensures ParseClock(Digits(minutes), Padded(seconds))
         == (if 1 <= minutes * 60 + seconds <= 7200 then Some(minutes * 60 + seconds) else None)
  {
    DigitsBack(minutes);
    TwoDigits(seconds);
    if minutes * 60 + seconds <= 7200 {
      assert Tens(4) == 10_000;
      FewDigits(minutes, 4);
    }
  }

  lemma ClockOf(n: Int32) returns (minutes: string, seconds: string)
    ensures FormatDuration(n) == minutes + ":" + seconds && |FormatDuration(n)| <= MAX_DIRECTIVE_VALUE
    ensures AllDigits(minutes) && AllDigits(seconds)
    ensures ParseClock(minutes, seconds) == if 1 <= n <= 7200 then Some(n) else None
  {
    var s: nat := if n < 0 then 0 else n;
    minutes, seconds := Digits(s / 60), Padded(s % 60);
    DurationWritten(s);
    DigitsBack(s / 60);
    assert Tens(10) == 10_000_000_000;
    FewDigits(s / 60, 10);
    TwoDigits(s % 60);
    ClockParses(s / 60, s % 60);
  }

  /** A duration of one second up to the importer's two hours comes back as it was, any
      other is not read at all. */
  lemma DurationBack(n: Int32, nfc: Normalizer)
    requires IsNormalizer(nfc)
    ensures ParseDuration(ReadBack(DirectiveValue(FormatDuration(n)), nfc)) == if 1 <= n <= 7200 then Some(n) else None
  {
    var minutes, seconds := ClockOf(n);
    DurationReads(FormatDuration(n), minutes, seconds, nfc);
  }
}

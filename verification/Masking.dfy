/**
 Masking e-mail addresses in free text. `alnum` is Unicode's notion of a letter
 or digit; all that matters here is that `@` is neither.
 */
module Masking {
  import opened Collections
  import opened Text

  type CharClass = char -> bool

  predicate IsDelimiter(c: char) {
    IsWhitespace(c) || c == ',' || c == ';' || c == '<' || c == '>' || c == '(' || c == ')' || c == '"' || c == '\''
  }

  // ----- one address, one word ---------------------------------------------

  predicate IsAt(c: char) {
    c == '@'
  }

  /** `ana.maria@example.com` becomes `a***@example.com`. */
  function MaskEmail(email: string): string {
    var local := TakeUntil(email, IsAt);
    if |local| == |email| then "***"
    else (if local == [] then [] else [local[0]]) + "***@" + email[|local| + 1..]
  }

  function DropFront(s: string, alnum: CharClass): string {
    if s != [] && !alnum(s[0]) then DropFront(s[1..], alnum) else s
  }

  function DropBack(s: string, alnum: CharClass): string {
    if s != [] && !alnum(s[|s| - 1]) then DropBack(s[..|s| - 1], alnum) else s
  }

  /** Without the punctuation around it. */
  function Bare(word: string, alnum: CharClass): string {
    DropBack(DropFront(word, alnum), alnum)
  }

  /** Every occurrence of `from`, left to right, without overlap. */
  function ReplaceAll(s: string, from: string, to: string): string
    requires from != []
  {
    if s == [] then []
    else if StartsWith(s, from) then to + ReplaceAll(s[|from|..], from, to)
    else [s[0]] + ReplaceAll(s[1..], from, to)
  }

  predicate IsAddress(bare: string) {
    '@' in bare && bare[0] != '@' && bare[|bare| - 1] != '@'
  }

  function MaskWord(word: string, alnum: CharClass): string {
    var bare := Bare(word, alnum);
    if IsAddress(bare) then ReplaceAll(word, bare, MaskEmail(bare)) else word
  }

  // ----- words and delimiters ----------------------------------------------

  /** The text with each word changed and each delimiter kept. */
  function MapWords(text: string, f: string -> string): string {
    var word := TakeUntil(text, IsDelimiter);
    if |word| == |text| then f(word)
    else f(word) + [text[|word|]] + MapWords(text[|word| + 1..], f)
  }

  /** The words between the delimiters, empty ones included. */
  function Words(text: string): (words: seq<string>)
    ensures words != []
  {
    var word := TakeUntil(text, IsDelimiter);
    if |word| == |text| then [word] else [word] + Words(text[|word| + 1..])
  }

  /** The delimiters, in order. */
  function Delimiters(text: string): string {
    var word := TakeUntil(text, IsDelimiter);
    if |word| == |text| then [] else [text[|word|]] + Delimiters(text[|word| + 1..])
  }

  predicate IsWord(word: string) {
    forall c :: c in word ==> !IsDelimiter(c)
  }

  lemma {:induction false} TakeOver(word: string, c: char, rest: string)
    requires IsDelimiter(c) && IsWord(word)
    ensures TakeUntil(word + [c] + rest, IsDelimiter) == word
  {
    if word != [] {
      TakeOver(word[1..], c, rest);
      assert (word + [c] + rest)[1..] == word[1..] + [c] + rest;
    }
  }

  lemma {:induction false} TakeEverything(word: string)
    requires IsWord(word)
    ensures TakeUntil(word, IsDelimiter) == word
  {
    if word != [] {
      TakeEverything(word[1..]);
    }
  }

  /** A text is one word, or a word, a delimiter and a shorter text. */
  lemma {:induction false} FirstWord(text: string) returns (word: string, rest: string)
    ensures word == TakeUntil(text, IsDelimiter) && IsWord(word)
    ensures |word| < |text| ==> IsDelimiter(text[|word|]) && rest == text[|word| + 1..] && text == word + [text[|word|]] + rest
    ensures |word| == |text| ==> word == text
  {
    word := TakeUntil(text, IsDelimiter);
    rest := if |word| < |text| then text[|word| + 1..] else [];
    if |word| < |text| {
      Stopped(text);
    }
  }

  lemma {:induction false} Stopped(s: string)
    requires |TakeUntil(s, IsDelimiter)| < |s|
    ensures IsDelimiter(s[|TakeUntil(s, IsDelimiter)|])
  {
    if !IsDelimiter(s[0]) {
      Stopped(s[1..]);
    }
  }

  lemma MapOneWord(word: string, f: string -> string)
    requires IsWord(word)
    ensures MapWords(word, f) == f(word) && Words(word) == [word] && Delimiters(word) == []
  {
    TakeEverything(word);
  }

  lemma MapFirstWord(word: string, c: char, rest: string, f: string -> string)
    requires IsWord(word) && IsDelimiter(c)
    ensures MapWords(word + [c] + rest, f) == f(word) + [c] + MapWords(rest, f)
    ensures Words(word + [c] + rest) == [word] + Words(rest)
    ensures Delimiters(word + [c] + rest) == [c] + Delimiters(rest)
  {
    TakeOver(word, c, rest);
    assert (word + [c] + rest)[|word| + 1..] == rest;
  }

  /** Masking distributes over a delimiter: what stands on one side of it has no
      bearing on the other. */
  lemma {:induction false} MapWordsAt(a: string, d: char, b: string, f: string -> string)
    requires IsDelimiter(d)
    ensures MapWords(a + [d] + b, f) == MapWords(a, f) + ([d] + MapWords(b, f))
    decreases |a|
  {
    var word, rest := FirstWord(a);
    if |word| == |a| {
      MapFirstWord(a, d, b, f);
      MapOneWord(a, f);
      Assoc(f(a), [d], MapWords(b, f));
    } else {
      LaterDelimiter(word, a[|word|], rest, d, b, f);
      MapWordsAt(rest, d, b, f);
      Assoc(f(word) + [a[|word|]], MapWords(rest, f), [d] + MapWords(b, f));
    }
  }

  lemma LaterDelimiter(word: string, c: char, rest: string, d: char, b: string, f: string -> string)
    requires IsWord(word) && IsDelimiter(c)
    ensures MapWords(word + [c] + rest + [d] + b, f) == f(word) + [c] + MapWords(rest + [d] + b, f)
    ensures MapWords(word + [c] + rest, f) == f(word) + [c] + MapWords(rest, f)
  {
    assert word + [c] + rest + [d] + b == word + [c] + (rest + [d] + b);
    MapFirstWord(word, c, rest + [d] + b, f);
    MapFirstWord(word, c, rest, f);
  }

  function MapAll(words: seq<string>, f: string -> string): seq<string> {
    if words == [] then [] else [f(words[0])] + MapAll(words[1..], f)
  }

  predicate KeepsWords(f: string -> string, words: seq<string>) {
    forall word :: word in words ==> IsWord(f(word))
  }

  /** The loop is split, map and join: the words come out changed one by one,
      and every delimiter stays where it was. */
  lemma {:induction false} SplitMapJoin(text: string, f: string -> string)
    requires KeepsWords(f, Words(text))
    ensures Delimiters(MapWords(text, f)) == Delimiters(text)
    ensures Words(MapWords(text, f)) == MapAll(Words(text), f)
    decreases |text|
  {
    var word, rest := FirstWord(text);
    if |word| == |text| {
      MapOneWord(text, f);
      MapOneWord(f(text), f);
    } else {
      MapFirstWord(word, text[|word|], rest, f);
      SplitMapJoin(rest, f);
      MapFirstWord(f(word), text[|word|], MapWords(rest, f), f);
      assert Words(text)[1..] == Words(rest);
    }
  }

  lemma {:induction false} MapTwice(text: string, f: string -> string)
    requires KeepsWords(f, Words(text)) && forall word :: word in Words(text) ==> f(f(word)) == f(word)
    ensures MapWords(MapWords(text, f), f) == MapWords(text, f)
    decreases |text|
  {
    var word, rest := FirstWord(text);
    if |word| == |text| {
      MapOneWord(text, f);
      MapOneWord(f(text), f);
    } else {
      var c := text[|word|];
      MapFirstWord(word, c, rest, f);
      MapTwice(rest, f);
      MapFirstWord(f(word), c, MapWords(rest, f), f);
    }
  }

  lemma {:induction false} MapNothing(text: string, f: string -> string)
    requires forall word :: word in Words(text) ==> f(word) == word
    ensures MapWords(text, f) == text
    decreases |text|
  {
    var word, rest := FirstWord(text);
    if |word| == |text| {
      MapOneWord(text, f);
    } else {
      MapFirstWord(word, text[|word|], rest, f);
      MapNothing(rest, f);
    }
  }

  lemma {:induction false} WordsOfText(text: string)
    ensures forall word :: word in Words(text) ==> IsWord(word) && forall c :: c in word ==> c in text
    decreases |text|
  {
    var word, rest := FirstWord(text);
    if |word| < |text| {
      WordsOfText(rest);
    }
  }

  // ----- the loop ----------------------------------------------------------

  function Masker(alnum: CharClass): string -> string {
    (word: string) => MaskWord(word, alnum)
  }

  function MaskText(text: string, alnum: CharClass): string {
    MapWords(text, Masker(alnum))
  }

  /** What the loop has left to do, with `word` gathered so far. */
  ghost predicate LeftToDo(out: string, word: string, rest: string, f: string -> string, total: string) {
    IsWord(word) && out + MapWords(word + rest, f) == total
  }

  lemma FlushStep(out: string, word: string, c: char, rest: string, f: string -> string, total: string)
    requires LeftToDo(out, word, [c] + rest, f, total) && IsDelimiter(c)
    ensures LeftToDo(out + f(word) + [c], [], rest, f, total)
  {
    Assoc(word, [c], rest);
    MapFirstWord(word, c, rest, f);
    Flushed(out, f(word), c, MapWords(rest, f));
    assert [] + rest == rest;
  }

  lemma Flushed(out: string, masked: string, c: char, later: string)
    ensures out + (masked + [c] + later) == out + masked + [c] + later
  {}

  lemma GatherStep(out: string, word: string, c: char, rest: string, f: string -> string, total: string)
    requires LeftToDo(out, word, [c] + rest, f, total) && !IsDelimiter(c)
    ensures LeftToDo(out, word + [c], rest, f, total)
  {
    Assoc(word, [c], rest);
  }

  lemma LastStep(out: string, word: string, f: string -> string, total: string)
    requires LeftToDo(out, word, [], f, total)
    ensures out + f(word) == total
  {
    assert word + [] == word;
    MapOneWord(word, f);
  }

  lemma AllToDo(text: string, f: string -> string)
    ensures LeftToDo([], [], text[0..], f, MapWords(text, f))
  {
    assert [] + text[0..] == text;
  }

  method Flush(word: string, out: string, alnum: CharClass, ghost f: string -> string) returns (out': string)
    requires f == Masker(alnum)
    ensures out' == out + f(word)
  {
    if word == [] {
      out' := out;
    } else {
      var bare := Bare(word, alnum);
      if IsAddress(bare) {
        out' := out + ReplaceAll(word, bare, MaskEmail(bare));
      } else {
        out' := out + word;
      }
    }
  }

  /** One character: it ends the word, or belongs to it. */
  method Next(c: char, word: string, out: string, ghost rest: string, alnum: CharClass,
              ghost f: string -> string, ghost total: string)
    returns (word': string, out': string)
    requires f == Masker(alnum) && LeftToDo(out, word, [c] + rest, f, total)
    ensures LeftToDo(out', word', rest, f, total)
  {
    if IsDelimiter(c) {
      FlushStep(out, word, c, rest, f, total);
      out' := Flush(word, out, alnum, f);
      out' := out' + [c];
      word' := [];
    } else {
      GatherStep(out, word, c, rest, f, total);
      out' := out;
      word' := word + [c];
    }
  }

  lemma FirstChar(text: string, i: nat)
    requires i < |text|
    ensures text[i..] == [text[i]] + text[i + 1..]
  {}

  /** The character loop: `word` gathers a word until a delimiter flushes it. */
  method MaskEmailsIn(text: string, alnum: CharClass) returns (out: string)
    ensures out == MaskText(text, alnum)
  {
    ghost var f, total := Masker(alnum), MaskText(text, alnum);
    out := [];
    var word: string := [];
    AllToDo(text, f);
    for i := 0 to |text|
      invariant LeftToDo(out, word, text[i..], f, total)
    {
      FirstChar(text, i);
      word, out := Next(text[i], word, out, text[i + 1..], alnum, f, total);
    }
    LastStep(out, word, f, total);
    out := Flush(word, out, alnum, f);
  }

  // ----- what masking one word does ----------------------------------------

  predicate NoneOf(s: string, alnum: CharClass) {
    forall c :: c in s ==> !alnum(c)
  }

  /** `t` starts and ends with a letter or digit. */
  predicate Edged(t: string, alnum: CharClass) {
    t != [] && alnum(t[0]) && alnum(t[|t| - 1])
  }

  lemma {:induction false} DropFrontOf(pre: string, t: string, alnum: CharClass)
    requires NoneOf(pre, alnum) && (t == [] || alnum(t[0]))
    ensures DropFront(pre + t, alnum) == t
  {
    if pre != [] {
      assert (pre + t)[1..] == pre[1..] + t;
      DropFrontOf(pre[1..], t, alnum);
    }
  }

  lemma {:induction false} DropBackOf(t: string, post: string, alnum: CharClass)
    requires NoneOf(post, alnum) && (t == [] || alnum(t[|t| - 1]))
    ensures DropBack(t + post, alnum) == t
  {
    if post == [] {
      assert t + post == t;
    } else {
      assert (t + post)[..|t + post| - 1] == t + post[..|post| - 1];
      DropBackOf(t, post[..|post| - 1], alnum);
    }
  }

  lemma BareOf(pre: string, t: string, post: string, alnum: CharClass)
    requires NoneOf(pre, alnum) && NoneOf(post, alnum) && Edged(t, alnum)
    ensures Bare(pre + t + post, alnum) == t
  {
    assert pre + t + post == pre + (t + post);
    DropFrontOf(pre, t + post, alnum);
    DropBackOf(t, post, alnum);
  }

  lemma {:induction false} Front(s: string, alnum: CharClass) returns (pre: string)
    ensures s == pre + DropFront(s, alnum) && NoneOf(pre, alnum)
    ensures DropFront(s, alnum) == [] || alnum(DropFront(s, alnum)[0])
  {
    if s != [] && !alnum(s[0]) {
      pre := Front(s[1..], alnum);
      pre := [s[0]] + pre;
    } else {
      pre := [];
    }
  }

  lemma {:induction false} Back(s: string, alnum: CharClass) returns (post: string)
    requires s == [] || alnum(s[0])
    ensures s == DropBack(s, alnum) + post && NoneOf(post, alnum)
    ensures s != [] ==> Edged(DropBack(s, alnum), alnum)
    ensures s == [] ==> DropBack(s, alnum) == []
  {
    if s != [] && !alnum(s[|s| - 1]) {
      post := Back(s[..|s| - 1], alnum);
      post := post + [s[|s| - 1]];
    } else {
      post := [];
    }
  }

  /** A word is its punctuation around its bare part. */
  lemma Decompose(word: string, alnum: CharClass) returns (pre: string, post: string)
    ensures word == pre + Bare(word, alnum) + post && NoneOf(pre, alnum) && NoneOf(post, alnum)
    ensures Bare(word, alnum) == [] || Edged(Bare(word, alnum), alnum)
  {
    pre := Front(word, alnum);
    post := Back(DropFront(word, alnum), alnum);
  }

  lemma {:induction false} ReplaceNone(s: string, from: string, to: string, alnum: CharClass)
    requires NoneOf(s, alnum) && from != [] && alnum(from[0])
    ensures ReplaceAll(s, from, to) == s
  {
    if s != [] {
      ReplaceNone(s[1..], from, to, alnum);
    }
  }

  /** The bare part occurs once in its word, so once is what is replaced. */
  lemma {:induction false} ReplaceOnce(pre: string, t: string, post: string, to: string, alnum: CharClass)
    requires NoneOf(pre, alnum) && NoneOf(post, alnum) && Edged(t, alnum)
    ensures ReplaceAll(pre + t + post, t, to) == pre + to + post
  {
    var s := pre + t + post;
    if pre == [] {
      assert s[..|t|] == t && s[|t|..] == post;
      ReplaceNone(post, t, to, alnum);
    } else {
      assert s[1..] == pre[1..] + t + post;
      ReplaceOnce(pre[1..], t, post, to, alnum);
    }
  }

  /** An address with stars in place of its owner's name, whose `@` is at `at`. */
  function Starred(bare: string, at: nat): (r: string)
    requires at < |bare|
  {
    [bare[0]] + "***" + bare[at..]
  }

  /** The first `@` is at `at`. */
  predicate AtIs(s: string, at: nat) {
    at < |s| && s[at] == '@' && '@' !in s[..at]
  }

  lemma {:induction false} TakesUpTo(s: string, at: nat)
    requires AtIs(s, at)
    ensures TakeUntil(s, IsAt) == s[..at]
  {
    if at > 0 {
      assert s[0] == s[..at][0];
      assert s[1..][..at - 1] == s[..at][1..];
      TakesUpTo(s[1..], at - 1);
    }
  }

  lemma {:induction false} FirstAt(s: string) returns (at: nat)
    requires '@' in s
    ensures AtIs(s, at)
  {
    if s[0] == '@' {
      at := 0;
    } else {
      at := FirstAt(s[1..]);
      assert s[..at + 1] == [s[0]] + s[1..][..at];
      at := at + 1;
    }
  }

  lemma MaskedAddress(bare: string, at: nat)
    requires AtIs(bare, at) && at > 0
    ensures MaskEmail(bare) == Starred(bare, at)
  {
    TakesUpTo(bare, at);
    assert bare[at..] == "@" + bare[at + 1..];
    assert "***@" == "***" + "@";
    Assoc([bare[0]] + "***", "@", bare[at + 1..]);
    Assoc([bare[0]], "***", "@");
  }

  lemma MaskedBare(pre: string, bare: string, post: string, at: nat, alnum: CharClass)
    requires !alnum('@') && NoneOf(pre, alnum) && NoneOf(post, alnum) && Edged(bare, alnum) && AtIs(bare, at)
    ensures MaskWord(pre + bare + post, alnum) == pre + Starred(bare, at) + post
  {
    BareOf(pre, bare, post, alnum);
    MaskedAddress(bare, at);
    ReplaceOnce(pre, bare, post, Starred(bare, at), alnum);
  }

  /** What masking leaves of a word: of its first address, everything before the
      first `@` but one character gives way to stars; the rest, and all
      punctuation around, stays. */
  lemma MaskedWord(word: string, alnum: CharClass) returns (pre: string, bare: string, post: string, at: nat)
    requires !alnum('@')
    ensures word == pre + bare + post && NoneOf(pre, alnum) && NoneOf(post, alnum) && bare == Bare(word, alnum)
    ensures '@' !in bare ==> MaskWord(word, alnum) == word
    ensures '@' in bare ==> Edged(bare, alnum) && AtIs(bare, at) && MaskWord(word, alnum) == pre + Starred(bare, at) + post
  {
    pre, post := Decompose(word, alnum);
    bare := Bare(word, alnum);
    if '@' in bare {
      at := FirstAt(bare);
      MaskedBare(pre, bare, post, at, alnum);
    } else {
      at := 0;
    }
  }

  lemma StarredAgain(bare: string, at: nat, alnum: CharClass)
    requires Edged(bare, alnum) && AtIs(bare, at) && !alnum('@')
    ensures Edged(Starred(bare, at), alnum) && AtIs(Starred(bare, at), 4)
    ensures Starred(Starred(bare, at), 4) == Starred(bare, at)
  {
    assert forall i :: 0 <= i < at ==> bare[..at][i] != '@';
    assert bare[at..][0] == '@';
    assert Starred(bare, at)[4..] == bare[at..];
  }

  lemma MaskedWordAgain(word: string, alnum: CharClass)
    requires !alnum('@')
    ensures MaskWord(MaskWord(word, alnum), alnum) == MaskWord(word, alnum)
  {
    var pre, bare, post, at := MaskedWord(word, alnum);
    if '@' in bare {
      StarredAgain(bare, at, alnum);
      MaskedBare(pre, Starred(bare, at), post, 4, alnum);
    }
  }

  lemma MaskedWordIsWord(word: string, alnum: CharClass)
    requires !alnum('@') && IsWord(word)
    ensures IsWord(MaskWord(word, alnum))
  {
    var pre, bare, post, at := MaskedWord(word, alnum);
    if '@' in bare {
      forall c | c in MaskWord(word, alnum) ensures !IsDelimiter(c) {
        assert c in pre || c in Starred(bare, at) || c in post;
        assert c in Starred(bare, at) ==> c in "***" || c in bare;
        assert c in pre || c in bare || c in post ==> c in word;
      }
    }
  }

  // ----- main results ------------------------------------------------------

  /** Masking goes word by word: every delimiter stays in its place, and each
      word between two of them is masked on its own. */
  lemma MaskingKeepsDelimiters(text: string, alnum: CharClass)
    requires !alnum('@')
    ensures Delimiters(MaskText(text, alnum)) == Delimiters(text)
    ensures Words(MaskText(text, alnum)) == MapAll(Words(text), Masker(alnum))
  {
    WordsOfText(text);
    forall word | word in Words(text) ensures IsWord(Masker(alnum)(word)) {
      MaskedWordIsWord(word, alnum);
    }
    SplitMapJoin(text, Masker(alnum));
  }

  /** A text can be masked in pieces cut at a delimiter. */
  lemma MaskingDistributes(a: string, d: char, b: string, alnum: CharClass)
    requires IsDelimiter(d)
    ensures MaskText(a + [d] + b, alnum) == MaskText(a, alnum) + ([d] + MaskText(b, alnum))
  {
    MapWordsAt(a, d, b, Masker(alnum));
  }

  /** Blanks, commas, semicolons, angle brackets, round ones and quotes. */
  predicate Separates(c: char) {
    IsWhitespace(c) || c in ",;<>()\"'"
  }

  /** What stands up to the first of these is masked as one word, and the text behind it
      on its own. */
  lemma WordsAreSeparate(word: string, d: char, b: string, alnum: CharClass)
    requires Separates(d) && forall c :: c in word ==> !Separates(c)
    ensures MaskText(word, alnum) == MaskWord(word, alnum)
    ensures MaskText(word + [d] + b, alnum) == MaskWord(word, alnum) + ([d] + MaskText(b, alnum))
  {
    MapOneWord(word, Masker(alnum));
    MaskingDistributes(word, d, b, alnum);
  }

  /** Text already masked stays as it is, so masking on storing and again on
      logging shows the same. */
  lemma MaskingIsIdempotent(text: string, alnum: CharClass)
    requires !alnum('@')
    ensures MaskText(MaskText(text, alnum), alnum) == MaskText(text, alnum)
  {
    WordsOfText(text);
    forall word | word in Words(text)
      ensures IsWord(Masker(alnum)(word)) && Masker(alnum)(Masker(alnum)(word)) == Masker(alnum)(word)
    {
      MaskedWordIsWord(word, alnum);
      MaskedWordAgain(word, alnum);
    }
    MapTwice(text, Masker(alnum));
  }

  /** Text without an `@` is not touched. */
  lemma MaskingSparesPlainText(text: string, alnum: CharClass)
    requires !alnum('@') && '@' !in text
    ensures MaskText(text, alnum) == text
  {
    WordsOfText(text);
    forall word | word in Words(text) ensures Masker(alnum)(word) == word {
      var pre, bare, post, at := MaskedWord(word, alnum);
      assert forall c :: c in bare ==> c in word;
    }
    MapNothing(text, Masker(alnum));
  }

  /** Every `@` comes after three stars: no address in `s` shows its owner. */
  predicate Covered(s: string) {
    forall i :: 0 <= i < |s| && s[i] == '@' ==> StarsBefore(s, i)
  }

  predicate StarsBefore(s: string, i: nat)
    requires i < |s|
  {
    i >= 3 && s[i - 3] == '*' && s[i - 2] == '*' && s[i - 1] == '*'
  }

  /** The part from the first `@` on has stars before each later one. */
  predicate CoveredAfter(s: string, at: nat)
    requires at < |s|
  {
    forall i :: at < i < |s| && s[i] == '@' ==> i - at >= 3 && StarsBefore(s, i)
  }

  lemma StarredAt(bare: string, at: nat, i: nat)
    requires AtIs(bare, at) && 0 < at < i < |bare|
    ensures i - at + 4 < |Starred(bare, at)| && Starred(bare, at)[i - at + 4] == bare[i]
    ensures StarsBefore(Starred(bare, at), i - at + 4) <==> i - at >= 3 && StarsBefore(bare, i)
  {
    var s := Starred(bare, at);
    assert forall j :: at <= j < |bare| ==> s[j - at + 4] == bare[j];
    assert s[4] == '@';
  }

  lemma StarredCovered(bare: string, at: nat)
    requires AtIs(bare, at) && at > 0
    ensures Covered(Starred(bare, at)) <==> CoveredAfter(bare, at)
  {
    var s := Starred(bare, at);
    assert bare[..at][0] != '@';
    if Covered(s) {
      forall i | at < i < |bare| && bare[i] == '@' ensures i - at >= 3 && StarsBefore(bare, i) {
        StarredAt(bare, at, i);
      }
    }
    if CoveredAfter(bare, at) {
      forall j | 0 <= j < |s| && s[j] == '@' ensures StarsBefore(s, j) {
        if j > 4 {
          StarredAt(bare, at, j - 4 + at);
        }
      }
    }
  }

  /** A word that holds an address is covered exactly if every `@` after its
      first one already was: only one address of a word is masked. */
  lemma OneAddressPerWord(word: string, alnum: CharClass) returns (bare: string, at: nat)
    requires !alnum('@') && '@' in Bare(word, alnum)
    ensures bare == Bare(word, alnum) && AtIs(bare, at)
    ensures Covered(Bare(MaskWord(word, alnum), alnum)) <==> CoveredAfter(bare, at)
  {
    var pre, post;
    pre, bare, post, at := MaskedWord(word, alnum);
    StarredAgain(bare, at, alnum);
    BareOf(pre, Starred(bare, at), post, alnum);
    assert bare[0] != '@';
    StarredCovered(bare, at);
  }

  lemma MaskedAlone(word: string, at: nat, alnum: CharClass)
    requires !alnum('@') && Edged(word, alnum) && AtIs(word, at) && IsWord(word)
    ensures MaskText(word, alnum) == Starred(word, at)
  {
    assert [] + word + [] == word && [] + Starred(word, at) + [] == Starred(word, at);
    MaskedBare([], word, [], at, alnum);
    MapOneWord(word, Masker(alnum));
  }

  lemma StarredPrefix(first: string, at: nat, tail: string)
    requires AtIs(first, at)
    ensures AtIs(first + tail, at) && Starred(first + tail, at) == Starred(first, at) + tail
  {
    assert (first + tail)[..at] == first[..at];
    assert (first + tail)[at..] == first[at..] + tail;
  }

  /** Two addresses with no delimiter between them, only a slash say, are one
      word, and the second one shows in full. */
  lemma SecondAddressShows(first: string, at: nat, slash: char, second: string, alnum: CharClass)
    requires !alnum('@') && Edged(first, alnum) && AtIs(first, at) && Edged(second, alnum)
    requires IsWord(first) && !IsDelimiter(slash) && IsWord(second)
    ensures MaskText(first + ([slash] + second), alnum) == Starred(first, at) + ([slash] + second)
  {
    StarredPrefix(first, at, [slash] + second);
    MaskedAlone(first + ([slash] + second), at, alnum);
  }
}

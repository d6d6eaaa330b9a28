/**
 Which lines of its lyrics an exported song keeps (`embeddable_lyrics` of
 `src/export/chordpro.rs`): all but those laid out as one of the thirteen directives
 that the export writes itself, in their order.
 */
module ChordProLyrics {
  import opened Options
  import opened Collections
  import opened Text
  import opened ChordPro
  import opened ChordProReading

  predicate IsOwnName(name: string) {
    || name == "new_song" || name == "ns"
    || name == "title" || name == "t" || name == "subtitle" || name == "st"
    || name == "artist" || name == "key" || name == "tempo" || name == "time" || name == "capo"
    || name == "duration" || name == "meta"
  }

  predicate IsBlank(s: string) {
    forall c :: c in s ==> IsWhitespace(c)
  }

  predicate AllBraces(s: string) {
    forall c :: c in s ==> c == '{'
  }

  /** A line cut into blanks, braces, blanks, a word, blanks and the rest. */
  datatype Layout = Layout(before: string, braces: string, gap: string, word: string, after: string, rest: string)

  function Middle(l: Layout): string {
    l.gap + l.word + l.after
  }

  /** One brace or more, and behind the word a colon, a closing brace or nothing. */
  predicate IsLaidOut(line: string, l: Layout) {
    && line == l.before + (l.braces + (Middle(l) + l.rest))
    && IsBlank(l.before) && IsBlank(l.gap) && IsBlank(l.after)
    && l.braces != [] && AllBraces(l.braces)
    && (l.rest != [] ==> l.rest[0] == ':' || l.rest[0] == '}')
  }

  /** The line names a directive of the export's own, in whatever case. */
  ghost predicate IsOwnDirective(line: string) {
    exists l: Layout :: IsLaidOut(line, l) && IsOwnName(Lower(l.word))
  }

  // ----- trimming ----------------------------------------------------------

  lemma {:induction false} StartCut(s: string)
    ensures s == s[..|s| - |TrimStart(s)|] + TrimStart(s) && IsBlank(s[..|s| - |TrimStart(s)|])
  {
    if s != [] && IsWhitespace(s[0]) {
      StartCut(s[1..]);
      var cut := |s| - |TrimStart(s)|;
      assert s[..cut] == [s[0]] + s[1..][..cut - 1];
    }
  }

  lemma {:induction false} EndCut(s: string)
    ensures s == TrimEnd(s) + s[|TrimEnd(s)|..] && IsBlank(s[|TrimEnd(s)|..])
  {
    if s != [] && IsWhitespace(s[|s| - 1]) {
      EndCut(s[..|s| - 1]);
      var cut := |TrimEnd(s)|;
      assert s[cut..] == s[..|s| - 1][cut..] + [s[|s| - 1]];
    }
  }

  lemma {:induction false} BracesCut(s: string)
    ensures s == s[..|s| - |TrimStartOf(s, '{')|] + TrimStartOf(s, '{')
    ensures AllBraces(s[..|s| - |TrimStartOf(s, '{')|])
  {
    if s != [] && s[0] == '{' {
      BracesCut(s[1..]);
      var cut := |s| - |TrimStartOf(s, '{')|;
      assert s[..cut] == [s[0]] + s[1..][..cut - 1];
    }
  }

  lemma {:induction false} StartCutOff(blanks: string, s: string)
    requires IsBlank(blanks) && (s == [] || !IsWhitespace(s[0]))
    ensures TrimStart(blanks + s) == s
  {
    if blanks == [] {
      assert blanks + s == s;
    } else {
      assert blanks[0] in blanks;
      assert (blanks + s)[1..] == blanks[1..] + s;
      StartCutOff(blanks[1..], s);
    }
  }

  lemma {:induction false} EndCutOff(s: string, blanks: string)
    requires IsBlank(blanks) && (s == [] || !IsWhitespace(s[|s| - 1]))
    ensures TrimEnd(s + blanks) == s
  {
    if blanks == [] {
      assert s + blanks == s;
    } else {
      assert blanks[|blanks| - 1] in blanks;
      assert (s + blanks)[..|s + blanks| - 1] == s + blanks[..|blanks| - 1];
      EndCutOff(s, blanks[..|blanks| - 1]);
    }
  }

  lemma {:induction false} BracesCutOff(braces: string, s: string)
    requires AllBraces(braces) && (s == [] || s[0] != '{')
    ensures TrimStartOf(braces + s, '{') == s
  {
    if braces == [] {
      assert braces + s == s;
    } else {
      assert braces[0] in braces;
      assert (braces + s)[1..] == braces[1..] + s;
      assert forall c :: c in braces[1..] ==> c in braces;
      BracesCutOff(braces[1..], s);
    }
  }

  /** What stands at the end stays, from the last character that is no blank. */
  lemma {:induction false} EndStays(s: string, n: nat)
    requires n < |s| && !IsWhitespace(s[n])
    ensures n < |TrimEnd(s)|
  {
    if IsWhitespace(s[|s| - 1]) {
      EndStays(s[..|s| - 1], n);
    }
  }

  lemma TrimCut(s: string) returns (gap: string, after: string)
    ensures s == gap + Trim(s) + after && IsBlank(gap) && IsBlank(after)
  {
    var t := TrimStart(s);
    StartCut(s);
    EndCut(t);
    gap, after := s[..|s| - |t|], t[|TrimEnd(t)|..];
  }

  predicate IsSolid(word: string) {
    word != [] && !IsWhitespace(word[0]) && !IsWhitespace(word[|word| - 1])
  }

  lemma TrimAround(gap: string, word: string, after: string)
    requires IsBlank(gap) && IsBlank(after) && IsSolid(word)
    ensures Trim(gap + word + after) == word
  {
    assert gap + word + after == gap + (word + after);
    StartCutOff(gap, word + after);
    EndCutOff(word, after);
  }

  lemma BlankTrims(s: string)
    ensures Trim(s) == [] <==> IsBlank(s)
  {
    var gap, after := TrimCut(s);
    if IsBlank(s) {
      TrimStartChars(s);
      assert forall i :: 0 <= i < |TrimStart(s)| ==> TrimStart(s)[i] in TrimStart(s);
    }
  }

  // ----- one line ----------------------------------------------------------

  lemma OwnNames(name: string)
    ensures IsOwnName(name) <==> name in EMITTED_DIRECTIVES
  {}

  /** Nothing in a name, however it is written, ends it or is a blank. */
  predicate IsWritten(word: string) {
    word != [] && forall c :: c in word ==> c != '{' && !EndsName(c) && !IsWhitespace(c)
  }

  lemma NameWritten(word: string)
    requires IsName(Lower(word))
    ensures IsWritten(word)
  {
    forall i | 0 <= i < |word| ensures word[i] != '{' && !EndsName(word[i]) && !IsWhitespace(word[i]) {
      assert Lower(word)[i] in Lower(word);
    }
  }

  lemma MiddleTrims(l: Layout)
    requires IsBlank(l.gap) && IsBlank(l.after) && IsWritten(l.word)
    ensures Trim(Middle(l)) == l.word
    ensures Middle(l) != [] && Middle(l)[0] != '{' && forall c :: c in Middle(l) ==> !EndsName(c)
  {
    assert l.word[0] in l.word && l.word[|l.word| - 1] in l.word;
    TrimAround(l.gap, l.word, l.after);
    assert l.gap != [] ==> l.gap[0] in l.gap;
  }

  lemma {:induction false} NothingEnds(s: string)
    requires forall c :: c in s ==> !EndsName(c)
    ensures TakeUntil(s, EndsName) == s
  {
    if s != [] {
      assert s[0] in s;
      NothingEnds(s[1..]);
      assert s == [s[0]] + s[1..];
    }
  }

  /** What a trimmed line is read as. */
  lemma TrimmedReads(l: Layout, rest: string)
    requires IsBlank(l.gap) && IsBlank(l.after) && IsWritten(l.word) && AllBraces(l.braces)
    requires rest != [] ==> EndsName(rest[0])
    ensures LooseName(l.braces + (Middle(l) + rest)) == Lower(l.word)
  {
    MiddleTrims(l);
    BracesCutOff(l.braces, Middle(l) + rest);
    if rest == [] {
      assert Middle(l) + rest == Middle(l);
      NothingEnds(Middle(l));
    } else {
      assert Middle(l) + rest == Middle(l) + [rest[0]] + rest[1..];
      TakeUntilAt(Middle(l), rest[0], rest[1..], EndsName);
    }
  }

  lemma BlanksTrim(l: Layout)
    requires IsBlank(l.after) && IsWritten(l.word)
    ensures TrimEnd(l.braces + (Middle(l) + [])) == l.braces + (Middle(l.(after := [])) + [])
  {
    var kept := l.braces + l.gap + l.word;
    assert l.braces + (Middle(l) + []) == kept + l.after;
    assert l.word[|l.word| - 1] in l.word;
    EndCutOff(kept, l.after);
    assert kept == l.braces + (Middle(l.(after := [])) + []);
  }

  lemma RestTrims(braces: string, middle: string, rest: string) returns (trimmed: string)
    requires rest != [] && !IsWhitespace(rest[0])
    ensures trimmed != [] && trimmed[0] == rest[0]
    ensures TrimEnd(braces + (middle + rest)) == braces + (middle + trimmed)
  {
    var t := braces + (middle + rest);
    var n := |braces| + |middle|;
    assert t[n] == rest[0];
    EndStays(t, n);
    trimmed := rest[..|TrimEnd(t)| - n];
    assert TrimEnd(t) == t[..|TrimEnd(t)|];
  }

  /** The end of the line is trimmed off its rest, or off the blanks behind its word. */
  lemma EndTrims(l: Layout) returns (m: Layout, rest: string)
    requires IsBlank(l.gap) && IsBlank(l.after) && IsWritten(l.word) && (l.rest != [] ==> EndsName(l.rest[0]))
    ensures m.braces == l.braces && m.gap == l.gap && m.word == l.word && IsBlank(m.after)
    ensures rest != [] ==> EndsName(rest[0])
    ensures TrimEnd(l.braces + (Middle(l) + l.rest)) == l.braces + (Middle(m) + rest)
  {
    if l.rest == [] {
      BlanksTrim(l);
      m, rest := l.(after := []), [];
    } else {
      m := l;
      rest := RestTrims(l.braces, Middle(l), l.rest);
    }
  }

  lemma LaidOutIsRead(line: string, l: Layout)
    requires IsLaidOut(line, l) && IsWritten(l.word)
    ensures Reads(line) == Some(Lower(l.word))
  {
    var t := l.braces + (Middle(l) + l.rest);
    assert t[0] == l.braces[0] && l.braces[0] in l.braces;
    StartCutOff(l.before, t);
    assert t[..1] == "{";
    var m, rest := EndTrims(l);
    TrimmedReads(m, rest);
  }

  lemma Assembled(line: string, before: string, braces: string, head: string, more: string, tail: string)
    requires line == before + (braces + (head + more) + tail)
    ensures line == before + (braces + (head + (more + tail)))
  {}

  /** The rest of a line, with the blanks that trimming takes off its end. */
  lemma LaidOutBy(line: string, before: string, braces: string, head: string, more: string, tail: string)
      returns (l: Layout)
    requires line == before + (braces + (head + (more + tail))) && IsBlank(before) && IsBlank(tail)
    requires braces != [] && AllBraces(braces) && (more != [] ==> EndsName(more[0]))
    ensures IsLaidOut(line, l) && l.word == Trim(head)
  {
    var gap, after := TrimCut(head);
    if more == [] {
      l := Layout(before, braces, gap, Trim(head), after + tail, []);
      assert head + (more + tail) == Middle(l) + [];
    } else {
      l := Layout(before, braces, gap, Trim(head), after, more + tail);
    }
  }

  lemma StartIs(s: string)
    requires StartsWith(s, "{")
    ensures s != [] && s[0] == '{' && TrimEnd(s) != [] && TrimEnd(s)[0] == '{'
  {
    assert s[0] == s[..1][0];
    EndStays(s, 0);
  }

  lemma BracesIn(s: string) returns (braces: string, named: string)
    requires s != [] && s[0] == '{'
    ensures s == braces + named && braces != [] && AllBraces(braces) && named == TrimStartOf(s, '{')
  {
    named := TrimStartOf(s, '{');
    braces := s[..|s| - |named|];
    BracesCut(s);
  }

  lemma HeadIn(s: string) returns (head: string, more: string)
    ensures s == head + more && head == TakeUntil(s, EndsName) && (more != [] ==> EndsName(more[0]))
  {
    head := TakeUntil(s, EndsName);
    more := s[|head|..];
    if more != [] {
      Stopped(s, EndsName);
    }
  }

  lemma LineIn(line: string) returns (before: string, tail: string)
    requires StartsWith(TrimStart(line), "{")
    ensures line == before + (Trim(line) + tail) && IsBlank(before) && IsBlank(tail)
    ensures Trim(line) != [] && Trim(line)[0] == '{'
  {
    var t := TrimStart(line);
    StartCut(line);
    EndCut(t);
    StartIs(t);
    before, tail := line[..|line| - |t|], t[|TrimEnd(t)|..];
  }

  /** The parts that reading goes through. */
  lemma ReadIsLaidOut(line: string) returns (l: Layout)
    requires Reads(line).Some?
    ensures IsLaidOut(line, l) && Lower(l.word) == Reads(line).value
  {
    var before, tail := LineIn(line);
    var braces, named := BracesIn(Trim(line));
    var head, more := HeadIn(named);
    Assembled(line, before, braces, head, more, tail);
    l := LaidOutBy(line, before, braces, head, more, tail);
  }

  lemma {:induction false} Stopped(s: string, stop: char -> bool)
    requires |TakeUntil(s, stop)| < |s|
    ensures stop(s[|TakeUntil(s, stop)|])
  {
    if !stop(s[0]) {
      Stopped(s[1..], stop);
    }
  }

  /** A line is dropped exactly if it is laid out as one of the thirteen. */
  lemma DropsOwnDirectives(line: string)
    ensures !Survives(line) <==> IsOwnDirective(line)
  {
    if !Survives(line) {
      var l := ReadIsLaidOut(line);
      OwnNames(Lower(l.word));
    } else if IsOwnDirective(line) {
      var l: Layout :| IsLaidOut(line, l) && IsOwnName(Lower(l.word));
      OwnNames(Lower(l.word));
      EmittedAreNames(Lower(l.word));
      NameWritten(l.word);
      LaidOutIsRead(line, l);
    }
  }

  // ----- all lines ---------------------------------------------------------

  /** `kept` are the lines at the positions `at`, in order: all whose line is no
      directive of the export's own. */
  ghost predicate AreTheOthers(kept: seq<string>, lines: seq<string>, at: seq<nat>) {
    && |at| == |kept|
    && (forall j :: 0 <= j < |at| ==> at[j] < |lines| && kept[j] == lines[at[j]])
    && (forall i, j :: 0 <= i < j < |at| ==> at[i] < at[j])
    && (forall k: nat :: k < |lines| ==> (k in at <==> !IsOwnDirective(lines[k])))
  }

  lemma SurvivorsFrom(line: string, rest: seq<string>)
    ensures Survivors([line] + rest) == Survivors([line]) + Survivors(rest)
  {
    assert [line][1..] == [];
    assert ([line] + rest)[1..] == rest;
  }

  lemma {:induction false} SurvivorsAppend(a: seq<string>, b: seq<string>)
    ensures Survivors(a + b) == Survivors(a) + Survivors(b)
  {
    if a == [] {
      assert a + b == b;
    } else {
      var line, rest := a[0], a[1..];
      SurvivorsAppend(rest, b);
      SurvivorsFrom(line, rest);
      SurvivorsFrom(line, rest + b);
      Assoc([line], rest, b);
      Assoc(Survivors([line]), Survivors(rest), Survivors(b));
      assert a == [line] + rest;
    }
  }

  lemma OneSurvives(line: string)
    ensures Survivors([line]) == if Survives(line) then [line] else []
  {
    assert [line][1..] == [];
  }

  lemma {:induction false} TheOthersSurvive(lines: seq<string>) returns (at: seq<nat>)
    ensures AreTheOthers(Survivors(lines), lines, at)
  {
    if lines == [] {
      at := [];
    } else {
      var n, last := |lines| - 1, lines[|lines| - 1];
      assert lines == lines[..n] + [last];
      var before := TheOthersSurvive(lines[..n]);
      SurvivorsAppend(lines[..n], [last]);
      OneSurvives(last);
      DropsOwnDirectives(last);
      at := if Survives(last) then before + [n] else before;
      LastDecided(Survivors(lines[..n]), lines, before);
    }
  }

  lemma LastDecided(kept: seq<string>, lines: seq<string>, at: seq<nat>)
    requires lines != [] && AreTheOthers(kept, lines[..|lines| - 1], at)
    ensures IsOwnDirective(lines[|lines| - 1]) ==> AreTheOthers(kept, lines, at)
    ensures !IsOwnDirective(lines[|lines| - 1]) ==>
      AreTheOthers(kept + [lines[|lines| - 1]], lines, at + [|lines| - 1])
  {
    var n := |lines| - 1;
    assert forall k: nat :: k < n ==> lines[k] == lines[..n][k];
    assert n !in at;
    assert forall k: nat :: k in at + [n] <==> k in at || k == n;
  }

  // ----- the lines of a text -----------------------------------------------

  /** A line without the return that ended it, if one did. */
  predicate EndsAs(part: string, line: string) {
    part == line + "\r" || (part == line && (line == [] || line[|line| - 1] != '\r'))
  }

  /** The lines of a text of these parts: nothing behind the last newline is no line,
      and a return there stays. */
  predicate AreLines(lines: seq<string>, parts: seq<string>)
    requires parts != []
  {
    var n := |parts| - 1;
    && |lines| == (if parts[n] == [] then n else n + 1)
    && (forall i :: 0 <= i < n ==> EndsAs(parts[i], lines[i]))
    && (parts[n] != [] ==> lines[n] == parts[n])
  }

  lemma {:induction false} EachEnds(parts: seq<string>)
    ensures |EachWithoutReturn(parts)| == |parts|
    ensures forall i :: 0 <= i < |parts| ==> EndsAs(parts[i], EachWithoutReturn(parts)[i])
  {
    if parts != [] {
      EachEnds(parts[1..]);
      var part := parts[0];
      assert part != [] && part[|part| - 1] == '\r' ==> part == part[..|part| - 1] + "\r";
    }
  }

  lemma LinesOfParts(text: string)
    ensures AreLines(Lines(text), Split(text, '\n'))
  {
    var parts := Split(text, '\n');
    EachEnds(parts[..|parts| - 1]);
  }

  // ----- main results ------------------------------------------------------

  /** Of lyrics that are not blank the song keeps every line in its order but those
      laid out as one of its own directives. A kept line is what stood between two
      newlines, without the return that ended it. */
  lemma LyricsKept(song: SongExport, parts: seq<string>)
      returns (lines: seq<string>, kept: seq<string>, at: seq<nat>)
    requires parts != [] && forall part :: part in parts ==> '\n' !in part
    requires song.lyrics == Some(Join(parts, "\n")) && !IsBlank(song.lyrics.value)
    ensures AreLines(lines, parts)
    ensures AreTheOthers(kept, lines, at)
    ensures Body(song) == Join(kept, "\n")
  {
    SplitJoin(parts, '\n');
    BlankTrims(song.lyrics.value);
    lines := Lines(song.lyrics.value);
    LinesOfParts(song.lyrics.value);
    kept := Survivors(lines);
    at := TheOthersSurvive(lines);
  }

  lemma {:induction false} AllSurvive(lines: seq<string>)
    requires forall line :: line in lines ==> Survives(line)
    ensures Survivors(lines) == lines
  {
    if lines != [] {
      assert lines[0] in lines;
      AllSurvive(lines[1..]);
    }
  }

  lemma {:induction false} NothingAfter(parts: seq<string>, separator: string)
    requires parts != []
    ensures Join(parts + [[]], separator) == Join(parts, separator) + separator
  {
    var more := parts + [[]];
    if |parts| == 1 {
      assert more[1..] == [[]];
    } else {
      assert more[1..] == parts[1..] + [[]];
      NothingAfter(parts[1..], separator);
    }
  }

  lemma {:induction false} NoReturns(parts: seq<string>)
    requires forall part :: part in parts ==> '\r' !in part
    ensures EachWithoutReturn(parts) == parts
  {
    if parts != [] {
      assert parts[0] in parts;
      NoReturns(parts[1..]);
    }
  }

  lemma {:induction false} PartsWithin(s: string, c: char)
    ensures forall part :: part in Split(s, c) ==> Within(part, s)
  {
    if s != [] {
      PartsWithin(s[1..], c);
      var rest := Split(s[1..], c);
      assert rest[0] in rest && forall part :: part in rest[1..] ==> part in rest;
      assert forall part :: Within(part, s[1..]) ==> Within(part, s);
      assert Within([s[0]] + rest[0], s);
    }
  }

  lemma PartsHaveNone(text: string)
    requires '\r' !in text
    ensures forall part :: part in Split(text, '\n') ==> '\r' !in part
  {
    PartsWithin(text, '\n');
    forall part | part in Split(text, '\n') ensures '\r' !in part {
      assert Within(part, text);
    }
  }

  /** The parts of a text are its lines, but for a last part that is empty. */
  lemma PartsAreLines(parts: seq<string>)
    requires parts != [] && forall part :: part in parts ==> '\r' !in part
    ensures var n := |parts| - 1;
      EachWithoutReturn(parts[..n]) + (if parts[n] == [] then [] else [parts[n]])
      == if parts[n] == [] then parts[..n] else parts
  {
    var n := |parts| - 1;
    NoReturns(parts[..n]);
    assert parts == parts[..n] + [parts[n]];
  }

  lemma JoinedParts(parts: seq<string>, lines: seq<string>, separator: string)
    requires parts != [] && Join(parts, separator) != []
    requires lines == if parts[|parts| - 1] == [] then parts[..|parts| - 1] else parts
    ensures Join(parts, separator) == Join(lines, separator) || Join(parts, separator) == Join(lines, separator) + separator
  {
    if parts[|parts| - 1] == [] {
      assert parts == lines + [[]];
      if lines != [] {
        NothingAfter(lines, separator);
      }
    }
  }

  lemma OrdinaryLines(text: string)
    requires text != [] && '\r' !in text
    ensures forall line :: line in Lines(text) ==> line in Split(text, '\n')
    ensures text == Join(Lines(text), "\n") || text == Join(Lines(text), "\n") + "\n"
  {
    var parts := Split(text, '\n');
    PartsHaveNone(text);
    PartsAreLines(parts);
    JoinSplit(text, '\n');
    JoinedParts(parts, Lines(text), "\n");
  }

  /** Lyrics without a return and without such a line are exported as they are, up to
      the newline that ends them. */
  lemma OrdinaryLyricsStay(song: SongExport)
    requires song.lyrics.Some? && !IsBlank(song.lyrics.value) && '\r' !in song.lyrics.value
    requires forall line :: line in Split(song.lyrics.value, '\n') ==> !IsOwnDirective(line)
    ensures song.lyrics.value == Body(song) || song.lyrics.value == Body(song) + "\n"
  {
    var text := song.lyrics.value;
    BlankTrims(text);
    OrdinaryLines(text);
    forall line | line in Lines(text) ensures Survives(line) {
      DropsOwnDirectives(line);
    }
    AllSurvive(Lines(text));
  }

  /** Nothing to keep is said in as many words. */
  lemma NoLyricsSaid(song: SongExport)
    requires song.lyrics.None? || IsBlank(song.lyrics.value)
    ensures Body(song) == "# No lyrics provided."
  {
    if song.lyrics.Some? {
      BlankTrims(song.lyrics.value);
    }
  }
}

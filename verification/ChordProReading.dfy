/**
 How exported ChordPro text reads back: a library falls apart into exactly its
 songs, and a song's own fields, never its lyrics, are its metadata.
 */
module ChordProReading {
  import opened Options
  import opened Collections
  import opened Text
  import opened ChordPro

  // ----- a reader ----------------------------------------------------------

  /** Line by line; a line of which `starts` holds begins a new song. */
  function Groups(lines: seq<string>, starts: string -> bool): (groups: seq<seq<string>>)
    ensures groups != []
  {
    if lines == [] then [[]]
    else
      var rest := Groups(lines[1..], starts);
      if starts(lines[0]) then [[]] + rest else [[lines[0]] + rest[0]] + rest[1..]
  }

  /** The separator leaves one blank line before a song. */
  function LaterSongs(groups: seq<seq<string>>): seq<string> {
    if groups == [] then []
    else
      var g := groups[0];
      [Join(if g != [] && g[0] == [] then g[1..] else g, "\n")] + LaterSongs(groups[1..])
  }

  function SongsIn(text: string, starts: string -> bool): seq<string> {
    var groups := Groups(Split(text, '\n'), starts);
    [Join(groups[0], "\n")] + LaterSongs(groups[1..])
  }

  /** Any reader that takes the separator for a song start, and nothing that does
      not name one. */
  ghost predicate IsReader(starts: string -> bool) {
    starts(SEPARATOR) && forall line {:trigger Reads(line)} :: starts(line) ==> Reads(line).Some? && Reads(line).value in SONG_STARTS
  }

  /** What the importer makes of the text between a directive's braces. */
  function ParseInner(inner: string): Field {
    var name := TakeUntil(inner, IsColon);
    Field(Lower(Trim(name)), CleanValue(if |name| == |inner| then [] else inner[|name| + 1..]))
  }

  predicate Braced(line: string) {
    |line| >= 2 && line[0] == '{' && line[|line| - 1] == '}'
  }

  /** Whether the importer takes a line for a whole directive, and which. */
  function ParseDirective(raw: string): Option<Field> {
    ParseTrimmed(Trim(raw))
  }

  function ParseTrimmed(line: string): Option<Field> {
    if Braced(line) then Some(ParseInner(line[1..|line| - 1])) else None
  }

  predicate IsColon(c: char) {
    c == ':'
  }

  function CleanValue(value: string): string {
    Spaced(Blanked(value, IsBrace))
  }

  predicate ImporterStarts(line: string) {
    ParseDirective(line).Some? && ParseDirective(line).value.name in SONG_STARTS
  }

  // ----- names -------------------------------------------------------------

  predicate IsName(name: string) {
    name != [] && forall c :: c in name ==> c != '{' && !EndsName(c) && !IsWhitespace(c) && !('A' <= c <= 'Z')
  }

  lemma EmittedAreNames(name: string)
    requires name in EMITTED_DIRECTIVES
    ensures IsName(name)
  {}

  lemma {:induction false} TakeUntilAt(a: string, c: char, rest: string, stop: char -> bool)
    requires stop(c) && forall x :: x in a ==> !stop(x)
    ensures TakeUntil(a + [c] + rest, stop) == a
  {
    if a == [] {
      assert a + [c] + rest == [c] + rest;
    } else {
      assert (a + [c] + rest)[1..] == a[1..] + [c] + rest;
      TakeUntilAt(a[1..], c, rest, stop);
    }
  }

  lemma LowerName(name: string)
    requires IsName(name)
    ensures Lower(name) == name
  {
    forall i | 0 <= i < |name| ensures Lower(name)[i] == name[i] {
      assert name[i] in name;
    }
  }

  lemma NameReads(name: string, c: char, rest: string)
    requires IsName(name) && EndsName(c)
    ensures Lower(Trim(TakeUntil(name + [c] + rest, EndsName))) == name
  {
    TakeUntilAt(name, c, rest, EndsName);
    NothingToTrim(name);
    LowerName(name);
  }

  /** `{name...}` reads as `name`. */
  lemma BracedReads(name: string, c: char, rest: string)
    requires IsName(name) && EndsName(c) && (name + [c] + rest)[|name + rest|] == '}'
    ensures Reads("{" + (name + [c] + rest)) == Some(name)
  {
    var line := "{" + (name + [c] + rest);
    NothingToTrim(line);
    assert line[1..] == name + [c] + rest;
    assert TrimStartOf(line, '{') == name + [c] + rest;
    NameReads(name, c, rest);
    assert TrimStart(line) == line;
  }

  lemma DirectiveReads(name: string, value: string)
    requires IsName(name)
    ensures Reads(DirectiveLine(name, value)) == Some(name)
  {
    var rest := " " + value + "}";
    BracedReads(name, ':', rest);
    assert DirectiveLine(name, value) == "{" + (name + [':'] + rest);
  }

  /** `{name}` reads as `name`, to the export and to the importer. */
  lemma BareReads(name: string)
    requires IsName(name)
    ensures Reads("{" + name + "}") == Some(name)
    ensures ParseDirective("{" + name + "}") == Some(Field(name, []))
  {
    BracedReads(name, '}', []);
    assert "{" + name + "}" == "{" + (name + ['}'] + []);
    NothingToTrim("{" + name + "}");
    BareName(name);
  }

  lemma StartReads(name: string)
    requires name in SONG_STARTS
    ensures Reads("{" + name + "}") == Some(name)
    ensures ImporterStarts("{" + name + "}")
  {
    assert name in EMITTED_DIRECTIVES;
    EmittedAreNames(name);
    BareReads(name);
  }

  lemma SeparatorReads()
    ensures Reads(SEPARATOR) == Some(NEW_SONG)
    ensures ImporterStarts(SEPARATOR)
  {
    StartReads(NEW_SONG);
  }

  lemma BareName(name: string)
    requires IsName(name)
    ensures ParseTrimmed("{" + name + "}") == Some(Field(name, []))
  {
    var line := "{" + name + "}";
    assert line[1..|line| - 1] == name;
    WholeTaken(name);
    NothingToTrim(name);
    LowerName(name);
    assert Blanked([], IsBrace) == [];
  }

  lemma {:induction false} WholeTaken(s: string)
    requires ':' !in s
    ensures TakeUntil(s, IsColon) == s
  {
    if s != [] {
      WholeTaken(s[1..]);
      assert s == [s[0]] + s[1..];
    }
  }

  // ----- the lines of a song -----------------------------------------------

  predicate OneLine(line: string) {
    '\n' !in line
  }

  lemma SplitFirst(line: string, text: string, rest: string)
    requires OneLine(line)
    ensures Split(line + "\n" + text + rest, '\n') == [line] + Split(text + rest, '\n')
  {
    assert line + "\n" + text + rest == line + ['\n'] + (text + rest);
    SplitAt(line, text + rest, '\n');
    SplitOne(line, '\n');
  }

  lemma {:induction false} SplitWritten(lines: seq<string>, rest: string)
    requires forall line :: line in lines ==> OneLine(line)
    ensures Split(Written(lines) + rest, '\n') == lines + Split(rest, '\n')
  {
    if lines == [] {
      assert Written(lines) + rest == rest;
    } else {
      assert lines[0] in lines;
      SplitFirst(lines[0], Written(lines[1..]), rest);
      SplitWritten(lines[1..], rest);
      assert [lines[0]] + (lines[1..] + Split(rest, '\n')) == lines + Split(rest, '\n');
    }
  }

  function SongLines(song: SongExport): seq<string> {
    Split(SongText(song), '\n')
  }

  lemma SongLinesAre(song: SongExport)
    ensures SongLines(song) == HeaderLines(Fields(song)) + [[]] + Split(Body(song), '\n') + [[]]
  {
    FieldNames(song);
    HeaderOneLine(Fields(song));
    LinesOf(HeaderLines(Fields(song)), Body(song));
  }

  lemma LinesOf(header: seq<string>, body: string)
    requires forall line :: line in header ==> OneLine(line)
    ensures Split(Written(header + [[]] + [body]), '\n') == header + [[]] + Split(body, '\n') + [[]]
  {
    WrittenAppend(header + [[]], [body]);
    BodyLine(body);
    SplitWritten(header + [[]], body + ['\n'] + []);
    SplitAt(body, [], '\n');
    Assoc(header + [[]], Split(body, '\n'), [[]]);
  }

  lemma BodyLine(body: string)
    ensures Written([body]) == body + ['\n'] + []
  {
    assert [body][1..] == [];
  }

  // ----- values stay in their braces ---------------------------------------

  predicate IsPlain(c: char) {
    !BreaksOut(c) && (IsWhitespace(c) ==> c == ' ')
  }

  lemma {:induction false} TrimStartChars(s: string)
    ensures forall c :: c in TrimStart(s) ==> c in s
  {
    if s != [] && IsWhitespace(s[0]) {
      TrimStartChars(s[1..]);
    }
  }

  predicate IsBlack(word: string) {
    word != [] && forall c :: c in word ==> !IsWhitespace(c)
  }

  predicate Within(word: string, s: string) {
    forall c :: c in word ==> c in s
  }

  lemma {:induction false} WordsOf(s: string)
    ensures forall word :: word in SplitWhitespace(s) ==> IsBlack(word) && Within(word, s)
    decreases |s|
  {
    var t := TrimStart(s);
    TrimStartChars(s);
    if t != [] {
      var word := TakeUntil(t, IsWhitespace);
      WordsOf(t[|word|..]);
    }
  }

  /** Starts with a character that is no whitespace, and whitespace is a single
      space between two such characters, or at the end. */
  predicate IsSpaced(s: string) {
    && (s != [] ==> !IsWhitespace(s[0]))
    && forall i :: 0 < i < |s| && IsWhitespace(s[i]) ==> s[i] == ' ' && !IsWhitespace(s[i - 1])
  }

  lemma SpacedAppend(word: string, rest: string)
    requires IsBlack(word) && IsSpaced(rest)
    ensures IsSpaced(word + " " + rest)
  {
    var s := word + " " + rest;
    assert forall j :: 0 <= j < |word| ==> s[j] == word[j] && word[j] in word;
    forall i | 0 < i < |s| && IsWhitespace(s[i]) ensures s[i] == ' ' && !IsWhitespace(s[i - 1]) {
      if i > |word| {
        assert s[i] == rest[i - |word| - 1];
        assert i > |word| + 1 ==> s[i - 1] == rest[i - 1 - |word| - 1];
      }
    }
  }

  lemma {:induction false} JoinIsSpaced(words: seq<string>, s: string)
    requires forall word :: word in words ==> IsBlack(word) && Within(word, s)
    ensures IsSpaced(Join(words, " "))
    ensures forall c :: c in Join(words, " ") ==> c == ' ' || c in s
  {
    if |words| == 1 {
      assert words[0] in words;
      assert forall i :: 0 <= i < |words[0]| ==> words[0][i] in words[0];
    } else if words != [] {
      JoinIsSpaced(words[1..], s);
      assert words[0] in words;
      SpacedAppend(words[0], Join(words[1..], " "));
    }
  }

  lemma ValueIsPlain(value: string)
    ensures |DirectiveValue(value)| <= MAX_DIRECTIVE_VALUE
    ensures IsSpaced(DirectiveValue(value))
    ensures forall c :: c in DirectiveValue(value) ==> IsPlain(c)
  {
    var blanked := Blanked(value, BreaksOut);
    WordsOf(blanked);
    JoinIsSpaced(SplitWhitespace(blanked), blanked);
    var v := DirectiveValue(value);
    forall i | 0 <= i < |v| ensures IsPlain(v[i]) {
      assert v[i] in Spaced(blanked);
    }
  }

  predicate IsFieldName(name: string) {
    IsName(name) && name in EMITTED_DIRECTIVES && name !in SONG_STARTS && '\n' !in name
  }

  const FIELD_NAMES := ["title", "artist", "key", "tempo", "time", "capo", "duration", "meta"]

  lemma NameOfField(name: string)
    requires name in FIELD_NAMES
    ensures IsFieldName(name)
  {
    EmittedAreNames(name);
  }

  predicate NamedAsListed(fields: seq<Field>) {
    forall field :: field in fields ==> field.name in FIELD_NAMES
  }

  lemma FieldNames(song: SongExport)
    ensures NamedAsListed(Fields(song))
  {}

  predicate ReadsAsField(line: string) {
    Reads(line).Some? && Reads(line).value in FIELD_NAMES
  }

  lemma FieldLine(field: Field)
    requires field.name in FIELD_NAMES
    ensures forall line :: line in FirstLine(field) ==> OneLine(line) && ReadsAsField(line)
  {
    var value := DirectiveValue(field.value);
    NameOfField(field.name);
    ValueIsPlain(field.value);
    DirectiveReads(field.name, value);
    OneLineDirective(field.name, value);
  }

  lemma OneLineDirective(name: string, value: string)
    requires OneLine(name) && forall c :: c in value ==> IsPlain(c)
    ensures OneLine(DirectiveLine(name, value))
  {}

  lemma FieldIsNoStart(name: string)
    requires name in FIELD_NAMES
    ensures name !in SONG_STARTS
  {
    NameOfField(name);
  }

  lemma {:induction false} HeaderOneLine(fields: seq<Field>)
    requires NamedAsListed(fields)
    ensures forall line :: line in HeaderLines(fields) ==> OneLine(line) && ReadsAsField(line)
  {
    if fields != [] {
      HeaderOneLine(fields[1..]);
      FieldLine(fields[0]);
    }
  }

  // ----- lyrics ------------------------------------------------------------

  lemma {:induction false} SurvivorsSurvive(lines: seq<string>)
    ensures forall line :: line in Survivors(lines) ==> Survives(line) && line in lines
  {
    if lines != [] {
      SurvivorsSurvive(lines[1..]);
    }
  }

  lemma {:induction false} ReturnsStripped(lines: seq<string>)
    requires forall line :: line in lines ==> OneLine(line)
    ensures forall line :: line in EachWithoutReturn(lines) ==> OneLine(line)
  {
    if lines != [] {
      assert lines[0] in lines;
      ReturnsStripped(lines[1..]);
    }
  }

  lemma LinesAreLines(s: string)
    ensures forall line :: line in Lines(s) ==> OneLine(line)
  {
    SplitHasNone(s, '\n');
    var parts := Split(s, '\n');
    assert forall line :: line in parts[..|parts| - 1] ==> line in parts;
    ReturnsStripped(parts[..|parts| - 1]);
    assert parts[|parts| - 1] in parts;
  }

  lemma Unbraceable(line: string)
    requires line != [] && !IsWhitespace(line[0]) && line[0] != '{'
    ensures Reads(line) == None && ParseDirective(line) == None
  {
    var trimmed := Trim(line);
    assert trimmed == [] || trimmed[0] == line[0];
  }

  lemma NoLyrics()
    ensures OneLine(NO_LYRICS) && NO_LYRICS != [] && NO_LYRICS[0] == '#'
    ensures forall c :: c in NO_LYRICS ==> ' ' <= c <= '~'
  {}

  /** No line of what stands for the lyrics is one of the song's own directives. */
  lemma BodySurvives(song: SongExport)
    ensures forall line :: line in Split(Body(song), '\n') ==> Survives(line)
  {
    if song.lyrics.Some? && Trim(song.lyrics.value) != [] {
      var lines := Lines(song.lyrics.value);
      LinesAreLines(song.lyrics.value);
      SurvivorsSurvive(lines);
      if Survivors(lines) != [] {
        SplitJoin(Survivors(lines), '\n');
      }
    } else {
      NoLyrics();
      SplitOne(NO_LYRICS, '\n');
      Unbraceable(NO_LYRICS);
    }
  }

  // ----- splitting back ----------------------------------------------------

  predicate Quiet(lines: seq<string>, starts: string -> bool) {
    forall line :: line in lines ==> !starts(line)
  }

  lemma QuietSum(a: seq<string>, b: seq<string>, starts: string -> bool)
    requires Quiet(a, starts) && Quiet(b, starts)
    ensures Quiet(a + b, starts)
  {}

  lemma StartDoesNotSurvive(line: string, starts: string -> bool)
    requires IsReader(starts) && starts(line)
    ensures !Survives(line)
  {}

  lemma BodyIsQuiet(song: SongExport, starts: string -> bool)
    requires IsReader(starts)
    ensures Quiet(Split(Body(song), '\n'), starts)
  {
    BodySurvives(song);
    forall line | line in Split(Body(song), '\n') && starts(line) ensures false {
      StartDoesNotSurvive(line, starts);
    }
  }

  lemma HeaderIsQuiet(song: SongExport, starts: string -> bool)
    requires IsReader(starts)
    ensures Quiet(HeaderLines(Fields(song)), starts)
  {
    FieldNames(song);
    HeaderOneLine(Fields(song));
    forall line | line in HeaderLines(Fields(song)) ensures !starts(line) {
      FieldIsNoStart(Reads(line).value);
    }
  }

  /** Nothing a song is written as starts another one. */
  lemma SongIsQuiet(song: SongExport, starts: string -> bool)
    requires IsReader(starts)
    ensures Quiet(SongLines(song), starts)
  {
    SongLinesAre(song);
    HeaderIsQuiet(song, starts);
    BodyIsQuiet(song, starts);
    assert Reads([]) == None;
    QuietSum(HeaderLines(Fields(song)), [[]], starts);
    QuietSum(HeaderLines(Fields(song)) + [[]], Split(Body(song), '\n'), starts);
    QuietSum(HeaderLines(Fields(song)) + [[]] + Split(Body(song), '\n'), [[]], starts);
  }

  lemma {:induction false} GroupsOne(lines: seq<string>, starts: string -> bool)
    requires Quiet(lines, starts)
    ensures Groups(lines, starts) == [lines]
  {
    if lines != [] {
      assert lines[0] in lines;
      GroupsOne(lines[1..], starts);
      assert [lines[0]] + lines[1..] == lines;
    }
  }

  lemma {:induction false} GroupsAt(lines: seq<string>, start: string, rest: seq<string>, starts: string -> bool)
    requires Quiet(lines, starts) && starts(start)
    ensures Groups(lines + [start] + rest, starts) == [lines] + Groups(rest, starts)
  {
    if lines == [] {
      assert lines + [start] + rest == [start] + rest;
    } else {
      assert lines[0] in lines;
      GroupsAt(lines[1..], start, rest, starts);
      assert (lines + [start] + rest)[1..] == lines[1..] + [start] + rest;
      assert [lines[0]] + lines[1..] == lines;
    }
  }

  function AfterBlank(songs: seq<SongExport>): seq<seq<string>> {
    if songs == [] then [] else [[[]] + SongLines(songs[0])] + AfterBlank(songs[1..])
  }

  lemma SeparatorLines(first: string, start: string, c: char, rest: string)
    requires c !in start
    ensures Split(first + ([c] + start + [c, c]) + rest, c) == Split(first, c) + [start] + ([[]] + Split(rest, c))
  {
    Unpacked(first, start, c, rest);
    SplitAt(first, start + [c] + ([] + [c] + rest), c);
    SplitAt(start, [] + [c] + rest, c);
    SplitAt([], rest, c);
    SplitOne(start, c);
    Assoc(Split(first, c), [start], [[]] + Split(rest, c));
  }

  lemma Unpacked(first: string, start: string, c: char, rest: string)
    ensures first + ([c] + start + [c, c]) + rest == first + [c] + (start + [c] + ([] + [c] + rest))
  {}

  lemma RenderFirst(songs: seq<SongExport>)
    requires |songs| > 1
    ensures RenderSongs(songs) == SongText(songs[0]) + ("\n" + SEPARATOR + "\n\n") + RenderSongs(songs[1..])
  {
    assert SongTexts(songs)[1..] == SongTexts(songs[1..]);
  }

  lemma SeparatorIs()
    ensures "\n" + SEPARATOR + "\n\n" == ['\n'] + SEPARATOR + ['\n', '\n'] && '\n' !in SEPARATOR
  {}

  lemma LibraryLines(songs: seq<SongExport>)
    requires |songs| > 1
    ensures Split(RenderSongs(songs), '\n')
         == SongLines(songs[0]) + [SEPARATOR] + ([[]] + Split(RenderSongs(songs[1..]), '\n'))
  {
    RenderFirst(songs);
    SeparatorIs();
    SeparatorLines(SongText(songs[0]), SEPARATOR, '\n', RenderSongs(songs[1..]));
  }

  lemma BlankFirst(lines: seq<string>, starts: string -> bool)
    requires !starts([])
    ensures Groups([[]] + lines, starts) == [[[]] + Groups(lines, starts)[0]] + Groups(lines, starts)[1..]
  {
    assert ([[]] + lines)[1..] == lines;
  }

  function LibraryLinesOf(songs: seq<SongExport>): seq<string> {
    Split(RenderSongs(songs), '\n')
  }

  lemma OnlyGroup(song: SongExport, starts: string -> bool)
    requires IsReader(starts)
    ensures Groups(LibraryLinesOf([song]), starts) == [SongLines(song)]
  {
    SongIsQuiet(song, starts);
    GroupsOne(SongLines(song), starts);
    assert SongTexts([song]) == [SongText(song)];
  }

  lemma FirstGroup(songs: seq<SongExport>, starts: string -> bool)
    requires |songs| > 1 && IsReader(starts)
    ensures Groups(LibraryLinesOf(songs), starts)
         == [SongLines(songs[0])] + Groups([[]] + LibraryLinesOf(songs[1..]), starts)
  {
    SongIsQuiet(songs[0], starts);
    LibraryLines(songs);
    GroupsAt(SongLines(songs[0]), SEPARATOR, [[]] + LibraryLinesOf(songs[1..]), starts);
  }

  lemma {:induction false} LibraryGroups(songs: seq<SongExport>, starts: string -> bool)
    requires songs != [] && IsReader(starts)
    ensures Groups(LibraryLinesOf(songs), starts) == [SongLines(songs[0])] + AfterBlank(songs[1..])
  {
    if |songs| == 1 {
      OnlyGroup(songs[0], starts);
      assert songs == [songs[0]];
    } else {
      FirstGroup(songs, starts);
      var later := songs[1..];
      assert Reads([]) == None;
      BlankFirst(LibraryLinesOf(later), starts);
      LibraryGroups(later, starts);
      assert AfterBlank(later) == [[[]] + SongLines(later[0])] + AfterBlank(later[1..]);
    }
  }

  lemma {:induction false} LaterSongsBack(songs: seq<SongExport>)
    ensures LaterSongs(AfterBlank(songs)) == SongTexts(songs)
  {
    if songs != [] {
      var group := [[]] + SongLines(songs[0]);
      assert group[1..] == SongLines(songs[0]);
      JoinSplit(SongText(songs[0]), '\n');
      LaterSongsBack(songs[1..]);
    }
  }

  /** A library read back at its song starts is exactly its songs, in order,
      whatever their fields and lyrics hold. */
  lemma {:induction false} LibrarySplitsBack(songs: seq<SongExport>, starts: string -> bool)
    requires songs != [] && IsReader(starts)
    ensures SongsIn(RenderSongs(songs), starts) == SongTexts(songs)
  {
    LibraryGroups(songs, starts);
    JoinSplit(SongText(songs[0]), '\n');
    LaterSongsBack(songs[1..]);
    assert ([SongLines(songs[0])] + AfterBlank(songs[1..]))[1..] == AfterBlank(songs[1..]);
  }
}

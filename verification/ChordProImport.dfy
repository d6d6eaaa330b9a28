/**
 What the importer (`src/import/chordpro.rs`) reads in exported text. It normalises
 and cleans the text first: a lone `\r` ends a line too, and characters nobody sees
 are gone. The export does not foresee that, so lyrics can hide directives from it.
 */
module ChordProImport {
  import opened Options
  import opened Collections
  import opened Text
  import opened ChordPro
  import opened ChordProReading
  import opened Normalization

  // ----- the importer reads no more than the export drops -------------------

  lemma {:induction false} StartTrimmed(s: string, c: char)
    requires c in s && !IsWhitespace(c)
    ensures c in TrimStart(s)
  {
    if IsWhitespace(s[0]) {
      StartTrimmed(s[1..], c);
    }
  }

  lemma {:induction false} EndTrimmed(s: string, c: char)
    requires c in s && !IsWhitespace(c)
    ensures c in TrimEnd(s)
  {
    if IsWhitespace(s[|s| - 1]) {
      EndTrimmed(s[..|s| - 1], c);
    }
  }

  lemma LowerKeepsBraces(s: string)
    requires IsName(Lower(s))
    ensures '{' !in s && '}' !in s
  {
    forall i | 0 <= i < |s| ensures s[i] != '{' && s[i] != '}' {
      assert Lower(s)[i] in Lower(s);
    }
  }

  /** A name has no brace in it, however much blank it is written with. */
  lemma NoBraceAround(written: string)
    requires IsName(Lower(Trim(written)))
    ensures written != [] && '{' !in written && '}' !in written
  {
    LowerKeepsBraces(Trim(written));
    if '{' in written {
      StartTrimmed(written, '{');
      EndTrimmed(TrimStart(written), '{');
    }
    if '}' in written {
      StartTrimmed(written, '}');
      EndTrimmed(TrimStart(written), '}');
    }
  }

  lemma {:induction false} TakeMore(s: string, last: char)
    requires '}' !in TakeUntil(s, IsColon) && last == '}'
    ensures TakeUntil(s + [last], EndsName) == TakeUntil(s, IsColon)
  {
    if s == [] {
      assert s + [last] == [last];
    } else if s[0] != ':' {
      assert TakeUntil(s, IsColon) == [s[0]] + TakeUntil(s[1..], IsColon);
      TakeMore(s[1..], last);
      assert (s + [last])[1..] == s[1..] + [last];
    }
  }

  lemma {:induction false} TrimFirst(s: string)
    requires Trim(s) != []
    ensures TrimStart(s) != [] && TrimStart(s)[0] == Trim(s)[0]
  {}

  lemma SameName(inner: string)
    requires IsName(ParseInner(inner).name)
    ensures LooseName(['{'] + (inner + ['}'])) == ParseInner(inner).name
  {
    var written := TakeUntil(inner, IsColon);
    NoBraceAround(written);
    assert inner[0] != '{' by {
      assert inner[0] == written[0] && written[0] in written;
    }
    assert (['{'] + (inner + ['}']))[1..] == inner + ['}'];
    assert TrimStartOf(inner + ['}'], '{') == inner + ['}'];
    TakeMore(inner, '}');
  }

  lemma Unbraced(line: string)
    requires Braced(line)
    ensures line == ['{'] + (line[1..|line| - 1] + ['}'])
  {}

  lemma TrimmedReadsNoMore(line: string)
    requires ParseTrimmed(line).Some? && IsName(ParseTrimmed(line).value.name)
    ensures LooseName(line) == ParseTrimmed(line).value.name
  {
    Unbraced(line);
    SameName(line[1..|line| - 1]);
  }

  lemma BraceFirst(line: string)
    requires Braced(Trim(line))
    ensures StartsWith(TrimStart(line), "{")
  {
    TrimFirst(line);
  }

  lemma ImporterReadsNoMore(line: string)
    requires ParseDirective(line).Some? && IsName(ParseDirective(line).value.name)
    ensures Reads(line) == Some(ParseDirective(line).value.name)
  {
    TrimmedReadsNoMore(Trim(line));
    BraceFirst(line);
  }

  /** On a line that is clean already, the importer takes for a song start only
      what the export does. */
  lemma CleanLineStartsAgree()
    ensures IsReader(ImporterStarts)
  {
    SeparatorReads();
    forall line | ImporterStarts(line) ensures Reads(line).Some? && Reads(line).value in SONG_STARTS {
      assert ParseDirective(line).value.name in EMITTED_DIRECTIVES;
      EmittedAreNames(ParseDirective(line).value.name);
      ImporterReadsNoMore(line);
    }
  }

  // ----- cleaning ----------------------------------------------------------

  predicate Vanishes(c: char) {
    IsControl(c) || IsInvisible(c)
  }

  function CleanChar(c: char): string {
    if c == '\n' || c == '\r' then "\n"
    else if c == '\t' then "    "
    else if Vanishes(c) then []
    else [c]
  }

  /** The text with its line ends unified, its tabs spread out, and what nobody sees
      dropped. (`\r\n` counts as two line ends here; the blank line between them holds
      no directive.) */
  function Sanitized(s: string): string {
    if s == [] then [] else CleanChar(s[0]) + Sanitized(s[1..])
  }

  type Reader = string -> Option<Field>

  function Parsed(read: Option<Field>): seq<Field> {
    if read.Some? then [read.value] else []
  }

  function ParseAll(lines: seq<string>, read: Reader): seq<Field> {
    if lines == [] then [] else Parsed(read(lines[0])) + ParseAll(lines[1..], read)
  }

  /** The directives the importer meets, in order. (It unifies line ends before it
      normalises, which comes to the same.) */
  function Directives(text: string, nfc: Normalizer): seq<Field> {
    ParseAll(Split(Sanitized(nfc(text)), '\n'), ParseDirective)
  }

  lemma {:induction false} SanitizedAppend(a: string, b: string)
    ensures Sanitized(a + b) == Sanitized(a) + Sanitized(b)
  {
    if a == [] {
      assert a + b == b;
    } else {
      SanitizedAppend(a[1..], b);
      assert (a + b)[1..] == a[1..] + b;
      Assoc(CleanChar(a[0]), Sanitized(a[1..]), Sanitized(b));
    }
  }

  lemma SanitizedChar(c: char)
    ensures Sanitized([c]) == CleanChar(c)
  {
    assert [c][1..] == [];
    assert Sanitized([c]) == CleanChar(c) + [];
  }

  lemma {:induction false} ParseAllAppend(a: seq<string>, b: seq<string>, read: Reader)
    ensures ParseAll(a + b, read) == ParseAll(a, read) + ParseAll(b, read)
  {
    if a == [] {
      assert a + b == b;
    } else {
      ParseAllAppend(a[1..], b, read);
      assert (a + b)[1..] == a[1..] + b;
      Assoc(Parsed(read(a[0])), ParseAll(a[1..], read), ParseAll(b, read));
    }
  }

  lemma ParseOnly(line: string, read: Reader)
    ensures ParseAll([line], read) == Parsed(read(line))
  {
    assert [line][1..] == [];
  }

  /** Line by line, the directives add up. */
  lemma DirectivesAdd(a: string, c: char, b: string, nfc: Normalizer)
    requires IsNormalizer(nfc)
    requires c == '\n' || c == '\r'
    ensures Directives(a + [c] + b, nfc) == Directives(a, nfc) + Directives(b, nfc)
  {
    assert IsMark(c) && nfc(a + [c] + b) == nfc(a) + [c] + nfc(b);
    SanitizedAppend(nfc(a) + [c], nfc(b));
    SanitizedAppend(nfc(a), [c]);
    SanitizedChar(c);
    assert "\n" == ['\n'];
    SplitAt(Sanitized(nfc(a)), Sanitized(nfc(b)), '\n');
    ParseAllAppend(Split(Sanitized(nfc(a)), '\n'), Split(Sanitized(nfc(b)), '\n'), ParseDirective);
  }

  lemma NoDirectives(nfc: Normalizer)
    requires IsNormalizer(nfc)
    ensures Directives([], nfc) == []
  {
    assert nfc([]) == [] && ParseDirective([]) == None;
    ParseOnly([], ParseDirective);
  }

  lemma OneLineParsed(line: string, nfc: Normalizer)
    requires '\n' !in Sanitized(nfc(line))
    ensures Directives(line, nfc) == Parsed(ParseDirective(Sanitized(nfc(line))))
  {
    SplitOne(Sanitized(nfc(line)), '\n');
    ParseOnly(Sanitized(nfc(line)), ParseDirective);
  }

  /** Nothing to clean. */
  predicate IsClean(line: string) {
    forall c :: c in line ==> !Vanishes(c)
  }

  lemma {:induction false} CleanStays(line: string)
    requires IsClean(line)
    ensures Sanitized(line) == line && '\n' !in line
  {
    if line != [] {
      assert line[0] in line;
      CleanStays(line[1..]);
      assert [line[0]] + line[1..] == line;
    }
  }

  predicate AllAscii(s: string) {
    forall c :: c in s ==> IsAscii(c)
  }

  lemma CleanLine(line: string, nfc: Normalizer)
    requires IsNormalizer(nfc) && IsClean(line) && AllAscii(line)
    ensures Directives(line, nfc) == Parsed(ParseDirective(line))
  {
    assert nfc(line) == line;
    CleanStays(line);
    OneLineParsed(line, nfc);
  }

  // ----- the song's own directives -----------------------------------------

  lemma {:induction false} TrimEndAfter(a: string, b: string)
    requires TrimEnd(b) != []
    ensures TrimEnd(a + b) == a + TrimEnd(b)
  {
    if IsWhitespace(b[|b| - 1]) {
      assert (a + b)[..|a + b| - 1] == a + b[..|b| - 1];
      TrimEndAfter(a, b[..|b| - 1]);
    }
  }

  lemma {:induction false} KeepsBlack(s: string)
    requires s != [] && !IsWhitespace(s[0])
    ensures TrimEnd(s) != []
  {
    if IsWhitespace(s[|s| - 1]) {
      KeepsBlack(s[..|s| - 1]);
    }
  }

  lemma SplitSpace(tail: string)
    ensures SplitWhitespace(" " + tail) == SplitWhitespace(tail)
  {
    assert (" " + tail)[1..] == tail;
    assert TrimStart(" " + tail) == TrimStart(tail);
  }

  lemma {:induction false} Interrupted(s: string, stop: char -> bool)
    requires |TakeUntil(s, stop)| < |s|
    ensures stop(s[|TakeUntil(s, stop)|])
  {
    if !stop(s[0]) {
      Interrupted(s[1..], stop);
    }
  }

  lemma FirstWordOf(v: string) returns (word: string, tail: string)
    requires IsSpaced(v) && v != []
    ensures word != [] && word == TakeUntil(v, IsWhitespace) && SplitWhitespace(v) == [word] + SplitWhitespace(tail)
    ensures (v == word && tail == []) || (v == word + " " + tail && IsSpaced(tail))
  {
    word := TakeUntil(v, IsWhitespace);
    assert TrimStart(v) == v;
    if |word| == |v| {
      tail := [];
      assert v[|word|..] == [];
    } else {
      Interrupted(v, IsWhitespace);
      tail := v[|word| + 1..];
      assert v[|word|..] == " " + tail;
      SplitSpace(tail);
      if tail != [] {
        assert !IsWhitespace(v[|word| + 1]);
      }
      forall i | 0 < i < |tail| && IsWhitespace(tail[i]) ensures tail[i] == ' ' && !IsWhitespace(tail[i - 1]) {
        assert tail[i] == v[|word| + 1 + i];
      }
    }
  }

  lemma LastWordSpaced(v: string, word: string)
    requires word != [] && (forall c :: c in word ==> !IsWhitespace(c)) && SplitWhitespace(v) == [word] + SplitWhitespace([])
    requires v == word || v == word + " "
    ensures Spaced(v) == TrimEnd(v) == word
  {
    assert SplitWhitespace([]) == [];
    assert word[|word| - 1] in word;
    if v != word {
      assert v[..|v| - 1] == word;
    }
  }

  lemma WordThenSpaced(v: string, word: string, tail: string)
    requires v == word + " " + tail && IsSpaced(tail) && tail != []
    requires SplitWhitespace(v) == [word] + SplitWhitespace(tail) && Spaced(tail) == TrimEnd(tail)
    ensures Spaced(v) == TrimEnd(v)
  {
    KeepsBlack(tail);
    TrimEndAfter(word + " ", tail);
    assert TrimStart(tail) == tail;
    assert SplitWhitespace(tail) != [];
    assert ([word] + SplitWhitespace(tail))[1..] == SplitWhitespace(tail);
  }

  /** Values as the export writes them keep their spacing when read, but for a
      space that truncation left at the end. */
  lemma {:induction false} SpacedTwice(v: string)
    requires IsSpaced(v)
    ensures Spaced(v) == TrimEnd(v)
    decreases |v|
  {
    if v != [] {
      var word, tail := FirstWordOf(v);
      if tail == [] {
        LastWordSpaced(v, word);
      } else {
        SpacedTwice(tail);
        WordThenSpaced(v, word, tail);
      }
    }
  }

  /** A written value as the importer reads it. */
  function ReadBack(value: string, nfc: Normalizer): string {
    Spaced(Sanitized(nfc(value)))
  }

  /** The song's own fields as the importer reads them, once each. */
  function OwnDirectives(fields: seq<Field>, nfc: Normalizer): seq<Field> {
    if fields == [] then [] else OwnDirective(fields[0], nfc) + OwnDirectives(fields[1..], nfc)
  }

  function OwnDirective(field: Field, nfc: Normalizer): seq<Field> {
    var value := DirectiveValue(field.value);
    if value == [] then [] else [Field(field.name, ReadBack(value, nfc))]
  }

  lemma {:induction false} PlainStaysPlain(value: string)
    requires forall c :: c in value ==> c != '\n' && c != '\r' && !IsBrace(c)
    ensures forall c :: c in Sanitized(value) ==> c != '\n' && !IsBrace(c)
  {
    if value != [] {
      assert value[0] in value && forall c :: c in value[1..] ==> c in value;
      PlainStaysPlain(value[1..]);
    }
  }

  lemma SanitizedLine(name: string, value: string)
    requires IsClean(name)
    ensures Sanitized(DirectiveLine(name, value)) == DirectiveLine(name, Sanitized(value))
  {
    CleanStays("{" + name + ": ");
    CleanStays("}");
    assert DirectiveLine(name, value) == "{" + name + ": " + (value + "}");
    SanitizedAppend("{" + name + ": ", value + "}");
    SanitizedAppend(value, "}");
  }

  lemma InnerParses(name: string, value: string)
    requires IsName(name) && forall c :: c in value ==> !IsBrace(c)
    ensures ParseInner(name + [':'] + (" " + value)) == Field(name, Spaced(value))
  {
    var inner := name + [':'] + (" " + value);
    TakeUntilAt(name, ':', " " + value, IsColon);
    NothingToTrim(name);
    LowerName(name);
    assert inner[|name| + 1..] == " " + value;
    assert Blanked(" " + value, IsBrace) == " " + value;
    SplitSpace(value);
  }

  lemma LineParses(name: string, value: string)
    requires IsName(name) && forall c :: c in value ==> !IsBrace(c)
    ensures ParseTrimmed(DirectiveLine(name, value)) == Some(Field(name, Spaced(value)))
  {
    var line := DirectiveLine(name, value);
    assert line[1..|line| - 1] == name + [':'] + (" " + value);
    InnerParses(name, value);
  }

  lemma HeaderParses(name: string, value: string)
    requires IsName(name) && forall c :: c in value ==> !IsBrace(c)
    ensures ParseDirective(DirectiveLine(name, value)) == Some(Field(name, Spaced(value)))
  {
    NothingToTrim(DirectiveLine(name, value));
    LineParses(name, value);
  }

  lemma FieldNameIsClean(name: string)
    requires name in EMITTED_DIRECTIVES
    ensures IsClean(name) && AllAscii(name)
  {}

  lemma LineParts(name: string, value: string)
    ensures DirectiveLine(name, value) == "{" + name + ":" + [' '] + (value + ['}'] + [])
  {}

  /** A directive line is normalised value by value. */
  lemma NormalLine(name: string, value: string, nfc: Normalizer)
    requires CutsAtMarks(nfc) && SparesPlainText(nfc) && AllAscii(name)
    ensures nfc(DirectiveLine(name, value)) == DirectiveLine(name, nfc(value))
  {
    LineParts(name, value);
    LineParts(name, nfc(value));
    NormalAcross("{" + name + ":", ' ', value + ['}'] + [], nfc);
    NormalAcross(value, '}', [], nfc);
    PlainIsNormal("{" + name + ":", nfc);
    PlainIsNormal([], nfc);
  }

  lemma NormalStaysPlain(value: string, nfc: Normalizer)
    requires IsNormalizer(nfc) && forall c :: c in value ==> IsPlain(c)
    ensures forall c :: c in nfc(value) ==> c != '\n' && c != '\r' && !IsBrace(c)
  {
    forall c | c in nfc(value) ensures c != '\n' && c != '\r' && !IsBrace(c) {
      assert IsSpecial(c) ==> c in value;
    }
  }

  lemma StaysOneLine(name: string, value: string)
    requires OneLine(name) && OneLine(value)
    ensures OneLine(DirectiveLine(name, value))
  {}

  lemma LineRead(name: string, value: string, nfc: Normalizer)
    requires IsNormalizer(nfc)
    requires name in EMITTED_DIRECTIVES && forall c :: c in value ==> IsPlain(c)
    ensures Directives(DirectiveLine(name, value), nfc) == [Field(name, ReadBack(value, nfc))]
  {
    FieldNameIsClean(name);
    EmittedAreNames(name);
    NormalStaysPlain(value, nfc);
    NormalLine(name, value, nfc);
    PlainStaysPlain(nfc(value));
    SanitizedLine(name, nfc(value));
    StaysOneLine(name, Sanitized(nfc(value)));
    OneLineParsed(DirectiveLine(name, value), nfc);
    HeaderParses(name, Sanitized(nfc(value)));
  }

  lemma CutLine(line: string, text: string, rest: string, nfc: Normalizer)
    requires IsNormalizer(nfc)
    ensures Directives(line + "\n" + text + rest, nfc) == Directives(line, nfc) + Directives(text + rest, nfc)
  {
    assert line + "\n" + text + rest == line + ['\n'] + (text + rest);
    DirectivesAdd(line, '\n', text + rest, nfc);
  }

  lemma FirstRead(field: Field, lines: seq<string>, rest: string, nfc: Normalizer)
    requires IsNormalizer(nfc)
    requires field.name in FIELD_NAMES
    ensures Directives(Written(FirstLine(field) + lines) + rest, nfc)
         == OwnDirective(field, nfc) + Directives(Written(lines) + rest, nfc)
  {
    var value := DirectiveValue(field.value);
    if value == [] {
      assert FirstLine(field) + lines == lines;
    } else {
      var line := DirectiveLine(field.name, value);
      assert ([line] + lines)[1..] == lines;
      NameOfField(field.name);
      ValueIsPlain(field.value);
      LineRead(field.name, value, nfc);
      CutLine(line, Written(lines), rest, nfc);
    }
  }

  lemma {:induction false} HeaderRead(fields: seq<Field>, rest: string, nfc: Normalizer)
    requires IsNormalizer(nfc)
    requires NamedAsListed(fields)
    ensures Directives(Written(HeaderLines(fields)) + rest, nfc) == OwnDirectives(fields, nfc) + Directives(rest, nfc)
  {
    if fields == [] {
      assert Written(HeaderLines(fields)) + rest == rest;
    } else {
      FirstRead(fields[0], HeaderLines(fields[1..]), rest, nfc);
      HeaderRead(fields[1..], rest, nfc);
      Assoc(OwnDirective(fields[0], nfc), OwnDirectives(fields[1..], nfc), Directives(rest, nfc));
    }
  }

  lemma Unfolded(header: string, body: string)
    ensures header + "\n" + body + "\n" == header + ([] + ['\n'] + (body + ['\n'] + []))
  {}

  lemma AfterHeader(fields: seq<Field>, body: string, nfc: Normalizer)
    requires IsNormalizer(nfc)
    requires NamedAsListed(fields)
    ensures Directives(Written(HeaderLines(fields)) + "\n" + body + "\n", nfc)
         == OwnDirectives(fields, nfc) + Directives(body, nfc)
  {
    var header := Written(HeaderLines(fields));
    Unfolded(header, body);
    HeaderRead(fields, [] + ['\n'] + (body + ['\n'] + []), nfc);
    DirectivesAdd([], '\n', body + ['\n'] + [], nfc);
    DirectivesAdd(body, '\n', [], nfc);
    NoDirectives(nfc);
  }

  // ----- the lyrics' directives --------------------------------------------

  /** The lines of the lyrics that the export goes through. */
  function LyricLines(song: SongExport): seq<string> {
    if song.lyrics.Some? && Trim(song.lyrics.value) != [] then Lines(song.lyrics.value) else []
  }

  function AllDirectives(lines: seq<string>, nfc: Normalizer): seq<Field> {
    if lines == [] then [] else Directives(lines[0], nfc) + AllDirectives(lines[1..], nfc)
  }

  /** The directives in the lines that the export lets through. */
  function LyricDirectives(song: SongExport, nfc: Normalizer): seq<Field> {
    AllDirectives(Survivors(LyricLines(song)), nfc)
  }

  lemma {:induction false} JoinedRead(lines: seq<string>, nfc: Normalizer)
    requires IsNormalizer(nfc)
    ensures Directives(Join(lines, "\n"), nfc) == AllDirectives(lines, nfc)
  {
    if lines == [] {
      NoDirectives(nfc);
    } else if |lines| == 1 {
      assert AllDirectives(lines[1..], nfc) == [];
    } else {
      JoinedRead(lines[1..], nfc);
      DirectivesAdd(lines[0], '\n', Join(lines[1..], "\n"), nfc);
    }
  }

  lemma NoLyricsRead(nfc: Normalizer)
    requires IsNormalizer(nfc)
    ensures Directives(NO_LYRICS, nfc) == []
  {
    NoLyricsAreClean();
    CleanLine(NO_LYRICS, nfc);
    Unbraceable(NO_LYRICS);
  }

  lemma NoLyricsAreClean()
    ensures IsClean(NO_LYRICS) && AllAscii(NO_LYRICS) && NO_LYRICS != [] && NO_LYRICS[0] == '#'
  {
    NoLyrics();
  }

  lemma BodyRead(song: SongExport, nfc: Normalizer)
    requires IsNormalizer(nfc)
    ensures Directives(Body(song), nfc) == LyricDirectives(song, nfc)
  {
    if song.lyrics.Some? && Trim(song.lyrics.value) != [] {
      JoinedRead(Survivors(Lines(song.lyrics.value)), nfc);
    } else {
      NoLyricsRead(nfc);
    }
  }

  // ----- main results ------------------------------------------------------

  /** What the importer meets in an exported song: the song's own fields in order,
      once each, then what the surviving lines of its lyrics hold. */
  lemma ImporterMeets(song: SongExport, nfc: Normalizer)
    requires IsNormalizer(nfc)
    ensures Directives(SongText(song), nfc) == OwnDirectives(Fields(song), nfc) + LyricDirectives(song, nfc)
  {
    FieldNames(song);
    EndOfSong(HeaderLines(Fields(song)), Body(song));
    AfterHeader(Fields(song), Body(song), nfc);
    BodyRead(song, nfc);
  }

  /** How many of the directives carry one of the names. */
  function Named(ds: seq<Field>, names: seq<string>): nat {
    if ds == [] then 0 else (if ds[0].name in names then 1 else 0) + Named(ds[1..], names)
  }

  /** The values of the directives called `name`, in order. */
  function ValuesOf(ds: seq<Field>, name: string): seq<string> {
    if ds == [] then [] else (if ds[0].name == name then [ds[0].value] else []) + ValuesOf(ds[1..], name)
  }

  /** The line, as the importer cleans it, holds a directive with such a name. */
  predicate Hides(line: string, names: seq<string>, nfc: Normalizer) {
    Named(Directives(line, nfc), names) > 0
  }

  /** No line of the lyrics that the export lets through hides one. */
  predicate HidesNone(song: SongExport, names: seq<string>, nfc: Normalizer) {
    forall line :: line in LyricLines(song) && Survives(line) ==> !Hides(line, names, nfc)
  }

  lemma {:induction false} NamedAppend(a: seq<Field>, b: seq<Field>, names: seq<string>)
    ensures Named(a + b, names) == Named(a, names) + Named(b, names)
  {
    if a == [] {
      assert a + b == b;
    } else {
      NamedAppend(a[1..], b, names);
      assert (a + b)[1..] == a[1..] + b;
    }
  }

  lemma {:induction false} ValuesAppend(a: seq<Field>, b: seq<Field>, name: string)
    ensures ValuesOf(a + b, name) == ValuesOf(a, name) + ValuesOf(b, name)
  {
    if a == [] {
      assert a + b == b;
    } else {
      ValuesAppend(a[1..], b, name);
      assert (a + b)[0] == a[0] && (a + b)[1..] == a[1..] + b;
    }
  }

  lemma {:induction false} ValuesCount(ds: seq<Field>, name: string)
    ensures |ValuesOf(ds, name)| == Named(ds, [name])
  {
    if ds != [] {
      ValuesCount(ds[1..], name);
    }
  }

  lemma {:induction false} SurvivorsHide(lines: seq<string>, names: seq<string>, nfc: Normalizer)
    ensures Named(AllDirectives(Survivors(lines), nfc), names) == 0 <==>
      forall line :: line in lines && Survives(line) ==> !Hides(line, names, nfc)
  {
    if lines != [] {
      SurvivorsHide(lines[1..], names, nfc);
      assert lines == [lines[0]] + lines[1..];
      if Survives(lines[0]) {
        var rest := Survivors(lines[1..]);
        assert ([lines[0]] + rest)[1..] == rest;
        NamedAppend(Directives(lines[0], nfc), AllDirectives(rest, nfc), names);
      }
    }
  }

  /** For each directive the importer reads exactly the song's own values if and
      only if no line of the lyrics that the export lets through hides another. */
  lemma MetadataIsTheFields(song: SongExport, name: string, nfc: Normalizer)
    requires IsNormalizer(nfc)
    ensures ValuesOf(Directives(SongText(song), nfc), name) == ValuesOf(OwnDirectives(Fields(song), nfc), name)
      <==> HidesNone(song, [name], nfc)
  {
    ImporterMeets(song, nfc);
    ValuesAppend(OwnDirectives(Fields(song), nfc), LyricDirectives(song, nfc), name);
    ValuesCount(LyricDirectives(song, nfc), name);
    SurvivorsHide(LyricLines(song), [name], nfc);
  }

  // ----- values ------------------------------------------------------------

  lemma {:induction false} CleanedChars(s: string)
    ensures forall c :: c in Sanitized(s) ==> !IsInvisible(c)
  {
    if s != [] {
      CleanedChars(s[1..]);
    }
  }

  lemma TrimEndKeeps(s: string, c: char)
    requires c in s && !IsWhitespace(c)
    ensures c in TrimEnd(s)
  {
    EndTrimmed(s, c);
  }

  lemma SpacedChars(s: string)
    ensures forall c :: c in Spaced(s) ==> c == ' ' || c in s
  {
    WordsOf(s);
    JoinIsSpaced(SplitWhitespace(s), s);
  }

  lemma FirstWordIsBlack(v: string) returns (word: string, tail: string)
    requires IsSpaced(v) && v != []
    ensures IsBlackWord(word)
    ensures (v == word && tail == []) || (v == word + [' '] + tail && IsSpaced(tail))
  {
    word, tail := FirstWordOf(v);
    assert " " == [' '];
  }

  lemma TrimOneSpace(word: string)
    requires IsBlackWord(word)
    ensures TrimEnd(word) == word && TrimEnd(word + [' '] + []) == word
  {
    assert word[|word| - 1] in word;
    assert (word + [' '] + [])[..|word|] == word;
  }

  lemma SpacedWords(word: string, tail: string)
    requires IsBlackWord(word) && IsSpaced(tail)
    ensures IsSpaced(word + [' '] + tail)
  {
    var v := word + [' '] + tail;
    assert forall k :: 0 <= k < |word| ==> word[k] in word && v[k] == word[k];
    assert forall k :: 0 <= k < |tail| ==> v[|word| + 1 + k] == tail[k];
  }

  lemma TrimLater(word: string, tail: string)
    requires IsSpaced(tail) && tail != []
    ensures TrimEnd(word + [' '] + tail) == word + [' '] + TrimEnd(tail)
  {
    KeepsBlack(tail);
    TrimEndAfter(word + [' '], tail);
  }

  /** Normalising keeps the spacing of a value. */
  lemma {:induction false} NormalSpacing(v: string, nfc: Normalizer)
    requires IsNormalizer(nfc) && IsSpaced(v)
    ensures IsSpaced(nfc(v)) && TrimEnd(nfc(v)) == nfc(TrimEnd(v)) && (nfc(v) == [] <==> v == [])
    decreases |v|
  {
    assert nfc([]) == [];
    if v != [] {
      var word, tail := FirstWordIsBlack(v);
      assert IsBlackWord(nfc(word));
      TrimOneSpace(word);
      TrimOneSpace(nfc(word));
      if tail == [] {
        WordSpacing(word, nfc);
      } else {
        NormalSpacing(tail, nfc);
        assert nfc(word + [' '] + tail) == nfc(word) + [' '] + nfc(tail);
        assert nfc(word + [' '] + TrimEnd(tail)) == nfc(word) + [' '] + nfc(TrimEnd(tail));
        SpacedWords(nfc(word), nfc(tail));
        TrimLater(word, tail);
        TrimLater(nfc(word), nfc(tail));
      }
    }
  }

  lemma WordSpacing(word: string, nfc: Normalizer)
    requires IsNormalizer(nfc) && IsBlackWord(word) && IsBlackWord(nfc(word))
    ensures IsSpaced(nfc(word)) && IsSpaced(nfc(word + [' '] + []))
    ensures nfc(word + [' '] + []) == nfc(word) + [' '] + []
  {
    assert nfc(word + [' '] + []) == nfc(word) + [' '] + nfc([]);
    SpacedWords(nfc(word), []);
    forall i | 0 <= i < |nfc(word)| ensures !IsWhitespace(nfc(word)[i]) {
      assert nfc(word)[i] in nfc(word);
    }
  }

  /** Nothing past a trailing space is lost. */
  lemma SameButTheSpace(v: string, nfc: Normalizer)
    requires IsNormalizer(nfc) && IsSpaced(v) && nfc(TrimEnd(v)) == TrimEnd(v)
    ensures nfc(v) == v
  {
    var t := TrimEnd(v);
    if t != v {
      assert IsWhitespace(v[|v| - 1]);
      if |v| > 1 {
        assert !IsWhitespace(v[|v| - 2]);
        assert TrimEnd(v[..|v| - 1]) == v[..|v| - 1];
      }
      assert v == t + [' '] + [];
      assert nfc(t + [' '] + []) == nfc(t) + [' '] + nfc([]);
    }
  }

  lemma NormalIsClean(v: string, nfc: Normalizer)
    requires IsNormalizer(nfc) && IsClean(v)
    ensures Sanitized(nfc(v)) == nfc(v)
  {
    forall c | c in nfc(v) ensures !Vanishes(c) {
      assert IsSpecial(c) ==> c in v;
    }
    CleanStays(nfc(v));
  }

  lemma NothingUnseen(v: string, nfc: Normalizer)
    requires ReadBack(v, nfc) == TrimEnd(v) && forall c :: c in v ==> IsPlain(c)
    ensures IsClean(v)
  {
    CleanedChars(nfc(v));
    SpacedChars(Sanitized(nfc(v)));
    forall c | c in v ensures !Vanishes(c) {
      if IsInvisible(c) {
        TrimEndKeeps(v, c);
      }
    }
  }

  /** A written value reads back as it is, but for a space that truncation left at
      its end, if and only if it is normalised and holds no invisible character. */
  lemma ReadsBackExactly(value: string, nfc: Normalizer)
    requires IsNormalizer(nfc)
    ensures var v := DirectiveValue(value);
      ReadBack(v, nfc) == TrimEnd(v) <==> nfc(v) == v && forall c :: c in v ==> !IsInvisible(c)
  {
    var v := DirectiveValue(value);
    ValueIsPlain(value);
    NormalSpacing(v, nfc);
    if ReadBack(v, nfc) == TrimEnd(v) {
      NothingUnseen(v, nfc);
      NormalIsClean(v, nfc);
      SpacedTwice(nfc(v));
      SameButTheSpace(v, nfc);
    } else if nfc(v) == v && forall c :: c in v ==> !IsInvisible(c) {
      CleanStays(v);
      SpacedTwice(v);
    }
  }
}

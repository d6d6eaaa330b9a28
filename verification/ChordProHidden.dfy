/**
 Directives that lyrics hide from the export and show to the importer: which lines
 do, and when a song's file is therefore taken for several songs.
 */
module ChordProHidden {
  import opened Options
  import opened Collections
  import opened Text
  import opened ChordPro
  import opened ChordProReading
  import opened Normalization
  import opened ChordProImport

  // ----- piece by piece ----------------------------------------------------

  /** A piece of a line, once cleaned, is a directive with such a name. */
  predicate Shows(piece: string, names: seq<string>, nfc: Normalizer) {
    var read := ParseDirective(Sanitized(nfc(piece)));
    read.Some? && read.value.name in names
  }

  lemma {:induction false} SplitChars(s: string, c: char)
    ensures forall part :: part in Split(s, c) ==> forall x :: x in part ==> x in s
  {
    if s != [] {
      SplitChars(s[1..], c);
      var rest := Split(s[1..], c);
      assert rest[0] in rest;
      assert forall part :: part in rest[1..] ==> part in rest;
    }
  }

  lemma {:induction false} NoLineEnds(s: string)
    requires '\n' !in s && '\r' !in s
    ensures '\n' !in Sanitized(s)
  {
    if s != [] {
      NoLineEnds(s[1..]);
      assert s == [s[0]] + s[1..];
    }
  }

  lemma NamedOne(read: Option<Field>, names: seq<string>)
    ensures Named(Parsed(read), names) > 0 <==> read.Some? && read.value.name in names
  {
    if read.Some? {
      assert [read.value][1..] == [];
    }
  }

  lemma PieceHides(piece: string, names: seq<string>, nfc: Normalizer)
    requires IsNormalizer(nfc)
    requires '\n' !in piece && '\r' !in piece
    ensures Hides(piece, names, nfc) <==> Shows(piece, names, nfc)
  {
    assert IsSpecial('\n') && IsSpecial('\r');
    NoLineEnds(nfc(piece));
    OneLineParsed(piece, nfc);
    NamedOne(ParseDirective(Sanitized(nfc(piece))), names);
  }

  lemma HidesEither(a: string, b: string, names: seq<string>, nfc: Normalizer)
    requires IsNormalizer(nfc)
    ensures Hides(a + ['\r'] + b, names, nfc) <==> Hides(a, names, nfc) || Hides(b, names, nfc)
  {
    DirectivesAdd(a, '\r', b, nfc);
    NamedAppend(Directives(a, nfc), Directives(b, nfc), names);
  }

  /** What two texts have together across a return, any number of them have. */
  lemma {:induction false} AnyJoined(parts: seq<string>, has: string -> bool)
    requires parts != [] && forall a: string, b: string :: has(a + ['\r'] + b) <==> has(a) || has(b)
    ensures has(Join(parts, "\r")) <==> exists part :: part in parts && has(part)
  {
    assert parts[0] in parts;
    if |parts| > 1 {
      var rest := Join(parts[1..], "\r");
      AnyJoined(parts[1..], has);
      assert Join(parts, "\r") == parts[0] + ['\r'] + rest;
      assert parts == [parts[0]] + parts[1..];
    }
  }

  /** A line hides a directive if and only if, broken at its returns too, one of its
      pieces is one when cleaned. */
  lemma HidesByPieces(line: string, names: seq<string>, nfc: Normalizer)
    requires IsNormalizer(nfc)
    requires OneLine(line)
    ensures Hides(line, names, nfc) <==> exists piece :: piece in Split(line, '\r') && Shows(piece, names, nfc)
  {
    var parts := Split(line, '\r');
    SplitHasNone(line, '\r');
    SplitChars(line, '\r');
    JoinSplit(line, '\r');
    forall a: string, b: string ensures Hides(a + ['\r'] + b, names, nfc) <==> Hides(a, names, nfc) || Hides(b, names, nfc) {
      HidesEither(a, b, names, nfc);
    }
    AnyJoined(parts, (text: string) => Hides(text, names, nfc));
    forall part | part in parts ensures Hides(part, names, nfc) <==> Shows(part, names, nfc) {
      PieceHides(part, names, nfc);
    }
  }

  // ----- tabs hide nothing -------------------------------------------------

  /** Cleaning changes it; a tab only becomes spaces. */
  predicate Changes(c: char) {
    (Vanishes(c) && c != '\t') || c == KELVIN
  }

  predicate IsHarmless(line: string) {
    forall c :: c in line ==> !Changes(c)
  }

  lemma HarmlessChar(c: char)
    requires !Changes(c)
    ensures CleanChar(c) == if c == '\t' then "    " else [c]
  {}

  lemma SpaceBefore(s: string)
    ensures TrimStart([' '] + s) == TrimStart(s)
  {
    assert ([' '] + s)[1..] == s;
  }

  lemma SpaceAfter(s: string)
    ensures TrimEnd(s + [' ']) == TrimEnd(s)
  {
    assert (s + [' '])[..|s|] == s;
  }

  lemma SpacesBefore(s: string)
    ensures TrimStart("    " + s) == TrimStart(s)
  {
    var one := [' '] + s;
    var two := [' '] + one;
    var three := [' '] + two;
    SpaceBefore(s);
    SpaceBefore(one);
    SpaceBefore(two);
    SpaceBefore(three);
    assert "    " + s == [' '] + three;
  }

  lemma SpacesAfter(s: string)
    ensures TrimEnd(s + "    ") == TrimEnd(s)
  {
    var one := s + [' '];
    var two := one + [' '];
    var three := two + [' '];
    SpaceAfter(s);
    SpaceAfter(one);
    SpaceAfter(two);
    SpaceAfter(three);
    assert s + "    " == three + [' '];
  }

  lemma {:induction false} StartOfTabs(s: string)
    requires IsHarmless(s)
    ensures TrimStart(Sanitized(s)) == Sanitized(TrimStart(s))
  {
    if s != [] {
      HarmlessChar(s[0]);
      if IsWhitespace(s[0]) {
        StartOfTabs(s[1..]);
        if s[0] == '\t' {
          SpacesBefore(Sanitized(s[1..]));
        } else {
          assert ([s[0]] + Sanitized(s[1..]))[1..] == Sanitized(s[1..]);
        }
      }
    }
  }

  lemma LastCleaned(init: string, last: char)
    ensures Sanitized(init + [last]) == Sanitized(init) + CleanChar(last)
  {
    SanitizedAppend(init, [last]);
    SanitizedChar(last);
  }

  lemma {:induction false} EndOfTabs(s: string)
    requires IsHarmless(s)
    ensures TrimEnd(Sanitized(s)) == Sanitized(TrimEnd(s))
  {
    if s != [] {
      var init, last := s[..|s| - 1], s[|s| - 1];
      HarmlessChar(last);
      assert s == init + [last];
      LastCleaned(init, last);
      if IsWhitespace(last) {
        EndOfTabs(init);
        if last == '\t' {
          SpacesAfter(Sanitized(init));
        } else {
          assert (Sanitized(init) + [last])[..|Sanitized(init)|] == Sanitized(init);
        }
      }
    }
  }

  lemma {:induction false} BracesOfTabs(s: string)
    requires IsHarmless(s)
    ensures TrimStartOf(Sanitized(s), '{') == Sanitized(TrimStartOf(s, '{'))
  {
    if s != [] {
      HarmlessChar(s[0]);
      if s[0] == '{' {
        BracesOfTabs(s[1..]);
        assert ([s[0]] + Sanitized(s[1..]))[1..] == Sanitized(s[1..]);
      }
    }
  }

  lemma {:induction false} TakeAcross(a: string, b: string, stop: char -> bool)
    requires forall c :: c in a ==> !stop(c)
    ensures TakeUntil(a + b, stop) == a + TakeUntil(b, stop)
  {
    if a == [] {
      assert a + b == b;
    } else {
      TakeAcross(a[1..], b, stop);
      assert (a + b)[1..] == a[1..] + b;
    }
  }

  lemma {:induction false} NameOfTabs(s: string)
    requires IsHarmless(s)
    ensures TakeUntil(Sanitized(s), EndsName) == Sanitized(TakeUntil(s, EndsName))
  {
    if s != [] {
      HarmlessChar(s[0]);
      if !EndsName(s[0]) {
        NameOfTabs(s[1..]);
        TakeAcross(CleanChar(s[0]), Sanitized(s[1..]), EndsName);
      }
    }
  }

  lemma {:induction false} TrimStartPart(s: string)
    ensures forall c :: c in TrimStart(s) ==> c in s
    ensures forall c :: c in TrimStartOf(s, '{') ==> c in s
    ensures forall c :: c in TrimEnd(s) ==> c in s
    ensures forall c :: c in TakeUntil(s, EndsName) ==> c in s
  {
    if s != [] {
      TrimStartPart(s[1..]);
    }
  }

  lemma {:induction false} TabShows(s: string)
    requires IsHarmless(s)
    ensures '\t' in s ==> ' ' in Sanitized(s)
    ensures '\t' !in s ==> Sanitized(s) == s
  {
    if s != [] {
      TabShows(s[1..]);
      HarmlessChar(s[0]);
      assert s == [s[0]] + s[1..];
    }
  }

  /** A name that a line has once its tabs are spaces it has before. */
  lemma TabbedName(s: string)
    requires IsHarmless(s) && IsName(Lower(Sanitized(s)))
    ensures Lower(s) == Lower(Sanitized(s))
  {
    TabShows(s);
    LowerKeepsSpaces(Sanitized(s));
  }

  lemma LowerKeepsSpaces(s: string)
    ensures ' ' in s ==> ' ' in Lower(s)
  {
    forall i | 0 <= i < |s| && s[i] == ' ' ensures ' ' in Lower(s) {
      assert Lower(s)[i] == ' ';
    }
  }

  lemma TabsTrimmed(line: string)
    requires IsHarmless(line)
    ensures Trim(Sanitized(line)) == Sanitized(Trim(line)) && IsHarmless(Trim(line))
  {
    TrimStartPart(line);
    TrimStartPart(TrimStart(line));
    StartOfTabs(line);
    EndOfTabs(TrimStart(line));
  }

  lemma TabbedLooseName(trimmed: string)
    requires IsHarmless(trimmed) && IsName(LooseName(Sanitized(trimmed)))
    ensures LooseName(trimmed) == LooseName(Sanitized(trimmed))
  {
    var inner := TrimStartOf(trimmed, '{');
    BracesOfTabs(trimmed);
    TrimStartPart(trimmed);
    NameOfTabs(inner);
    TrimStartPart(inner);
    TabsTrimmed(TakeUntil(inner, EndsName));
    TabbedName(Trim(TakeUntil(inner, EndsName)));
  }

  lemma TabbedBrace(line: string)
    requires IsHarmless(line) && StartsWith(TrimStart(Sanitized(line)), "{")
    ensures StartsWith(TrimStart(line), "{")
  {
    StartOfTabs(line);
    TrimStartPart(line);
    var t := TrimStart(line);
    if t != [] {
      HarmlessChar(t[0]);
    }
  }

  lemma TabsReadAlike(line: string)
    requires IsHarmless(line) && Reads(Sanitized(line)).Some? && IsName(Reads(Sanitized(line)).value)
    ensures Reads(line) == Reads(Sanitized(line))
  {
    TabsTrimmed(line);
    TabbedBrace(line);
    TabbedLooseName(Trim(line));
  }

  lemma HarmlessEnds(line: string)
    requires IsHarmless(line)
    ensures '\n' !in line && '\r' !in line
  {}

  lemma NormalIsHarmless(line: string, nfc: Normalizer)
    requires IsNormalizer(nfc) && IsHarmless(line)
    ensures IsHarmless(nfc(line)) && KELVIN !in line
  {
    forall c | c in nfc(line) ensures !Changes(c) {
      assert IsSpecial(c) ==> c in line;
    }
  }

  /** A surviving line hides a directive of the song's own only by a return in its
      middle, or by a character that cleaning drops or changes. */
  lemma HarmlessHidesNothing(line: string, nfc: Normalizer)
    requires IsNormalizer(nfc)
    requires Survives(line) && IsHarmless(line)
    ensures !Hides(line, EMITTED_DIRECTIVES, nfc)
  {
    HarmlessEnds(line);
    PieceHides(line, EMITTED_DIRECTIVES, nfc);
    if Shows(line, EMITTED_DIRECTIVES, nfc) {
      var name := ParseDirective(Sanitized(nfc(line))).value.name;
      EmittedAreNames(name);
      ImporterReadsNoMore(Sanitized(nfc(line)));
      NormalIsHarmless(line, nfc);
      TabsReadAlike(nfc(line));
    }
  }

  // ----- which lyrics are safe ---------------------------------------------

  predicate EndsLine(s: string, i: nat)
    requires i < |s|
  {
    s[i] == '\n' || (s[i] == '\r' && i + 1 < |s| && s[i + 1] == '\n')
  }

  /** Nothing cleaning changes but line ends, `\n` or `\r\n`. */
  predicate IsTame(lyrics: string) {
    forall i :: 0 <= i < |lyrics| && Changes(lyrics[i]) ==> EndsLine(lyrics, i)
  }

  /** Pieces between newlines, each clean but for the return before its newline. */
  predicate TamePieces(parts: seq<string>) {
    && parts != []
    && IsHarmless(parts[|parts| - 1])
    && forall k :: 0 <= k < |parts| - 1 ==> IsHarmless(WithoutReturn(parts[k]))
  }

  lemma NewlineFirst(rest: seq<string>)
    requires TamePieces(rest)
    ensures TamePieces([[]] + rest)
  {
    var parts := [[]] + rest;
    assert forall k :: 0 < k < |parts| ==> parts[k] == rest[k - 1];
  }

  lemma ReturnFirst(rest: seq<string>)
    requires TamePieces(rest) && |rest| > 1 && rest[0] == []
    ensures TamePieces([['\r']] + rest[1..])
  {
    var parts := [['\r']] + rest[1..];
    assert forall k :: 0 < k < |parts| ==> parts[k] == rest[k];
    assert WithoutReturn(['\r']) == [];
  }

  lemma CleanFirst(c: char, rest: seq<string>)
    requires TamePieces(rest) && !Changes(c)
    ensures TamePieces([[c] + rest[0]] + rest[1..])
  {
    var parts := [[c] + rest[0]] + rest[1..];
    assert forall k :: 0 < k < |parts| ==> parts[k] == rest[k];
    CleanOneMore(c, rest[0]);
  }

  lemma CleanOneMore(c: char, line: string)
    requires !Changes(c)
    ensures IsHarmless(line) ==> IsHarmless([c] + line)
    ensures IsHarmless(WithoutReturn(line)) ==> IsHarmless(WithoutReturn([c] + line))
  {
    assert line != [] ==> ([c] + line)[..|line|] == [c] + line[..|line| - 1];
  }

  lemma TameTail(s: string)
    requires IsTame(s) && s != []
    ensures IsTame(s[1..])
  {
    forall i | 0 <= i < |s| - 1 && Changes(s[1..][i]) ensures EndsLine(s[1..], i) {
      assert EndsLine(s, i + 1);
    }
  }

  lemma NewlineSplits(s: string)
    requires s != [] && s[0] == '\n'
    ensures Split(s, '\n')[0] == [] && |Split(s, '\n')| > 1
  {}

  lemma {:induction false} TameParts(s: string)
    requires IsTame(s)
    ensures TamePieces(Split(s, '\n'))
  {
    if s != [] {
      TameTail(s);
      TameParts(s[1..]);
      var rest := Split(s[1..], '\n');
      if s[0] == '\n' {
        NewlineFirst(rest);
      } else if Changes(s[0]) {
        assert EndsLine(s, 0);
        NewlineSplits(s[1..]);
        ReturnFirst(rest);
        assert [s[0]] + rest[0] == ['\r'];
      } else {
        CleanFirst(s[0], rest);
      }
    }
  }

  lemma {:induction false} EachAt(lines: seq<string>)
    ensures |EachWithoutReturn(lines)| == |lines|
    ensures forall k :: 0 <= k < |lines| ==> EachWithoutReturn(lines)[k] == WithoutReturn(lines[k])
  {
    if lines != [] {
      EachAt(lines[1..]);
    }
  }

  lemma TameLines(lyrics: string)
    requires IsTame(lyrics)
    ensures forall line :: line in Lines(lyrics) ==> IsHarmless(line)
  {
    TameParts(lyrics);
    var parts := Split(lyrics, '\n');
    EachAt(parts[..|parts| - 1]);
  }

  lemma {:induction false} FewerNames(ds: seq<Field>, names: seq<string>, more: seq<string>)
    requires forall name :: name in names ==> name in more
    ensures Named(ds, names) <= Named(ds, more)
  {
    if ds != [] {
      FewerNames(ds[1..], names, more);
    }
  }

  /** Lyrics of ordinary characters, tabs and line ends hide nothing. */
  lemma TameLyricsHideNothing(song: SongExport, names: seq<string>, nfc: Normalizer)
    requires IsNormalizer(nfc)
    requires song.lyrics.Some? ==> IsTame(song.lyrics.value)
    requires forall name :: name in names ==> name in EMITTED_DIRECTIVES
    ensures HidesNone(song, names, nfc)
  {
    forall line | line in LyricLines(song) && Survives(line) ensures !Hides(line, names, nfc) {
      TameLines(song.lyrics.value);
      HarmlessHidesNothing(line, nfc);
      FewerNames(Directives(line, nfc), names, EMITTED_DIRECTIVES);
    }
  }

  // ----- one song or several -----------------------------------------------

  const TITLES := ["title", "t"]

  /** Whether the importer, going through the directives, refuses the file as
      holding several songs; `titled` is whether it has a title already. */
  predicate Several(ds: seq<Field>, titled: bool) {
    ds != [] &&
    (if ds[0].name in SONG_STARTS then true
     else if ds[0].name in TITLES then titled || Several(ds[1..], ds[0].value != [])
     else Several(ds[1..], titled))
  }

  predicate RefusedAsSeveral(text: string, nfc: Normalizer) {
    Several(Directives(text, nfc), false)
  }

  /** The song's title is one the importer reads. */
  predicate Titled(song: SongExport, nfc: Normalizer) {
    DirectiveValue(song.title) != [] && ReadBack(DirectiveValue(song.title), nfc) != []
  }

  lemma {:induction false} SeveralTitled(ds: seq<Field>)
    ensures Several(ds, true) <==> Named(ds, SONG_STARTS + TITLES) > 0
  {
    if ds != [] {
      SeveralTitled(ds[1..]);
      assert ds[0].name in SONG_STARTS + TITLES <==> ds[0].name in SONG_STARTS || ds[0].name in TITLES;
    }
  }

  predicate IsDetail(d: Field) {
    d.name !in SONG_STARTS && d.name !in TITLES
  }

  lemma {:induction false} SkipDetails(own: seq<Field>, ds: seq<Field>, titled: bool)
    requires forall d :: d in own ==> IsDetail(d)
    ensures Several(own + ds, titled) <==> Several(ds, titled)
  {
    if own == [] {
      assert own + ds == ds;
    } else {
      assert IsDetail(own[0]);
      SkipDetails(own[1..], ds, titled);
      assert (own + ds)[1..] == own[1..] + ds;
    }
  }

  const DETAILS := ["artist", "key", "tempo", "time", "capo", "duration", "meta"]

  lemma DetailIsDetail(name: string, value: string)
    requires name in DETAILS
    ensures IsDetail(Field(name, value))
  {}

  lemma {:induction false} OwnDetails(fields: seq<Field>, nfc: Normalizer)
    requires forall field :: field in fields ==> field.name in DETAILS
    ensures forall d :: d in OwnDirectives(fields, nfc) ==> IsDetail(d)
  {
    if fields != [] {
      OwnDetails(fields[1..], nfc);
      DetailIsDetail(fields[0].name, ReadBack(DirectiveValue(fields[0].value), nfc));
    }
  }

  lemma TitleFirst(song: SongExport)
    ensures Fields(song)[0] == Field("title", song.title)
    ensures forall field :: field in Fields(song)[1..] ==> field.name in DETAILS
  {
    assert Fields(song)[1..] ==
      OptionalField("artist", song.artistName)
      + OptionalField("key", song.tonality)
      + OptionalField("tempo", Shown(song.tempo, Decimal))
      + OptionalField("time", song.timeSignature)
      + OptionalField("capo", Shown(song.capo, Decimal))
      + OptionalField("duration", Shown(song.duration, FormatDuration))
      + OptionalField("meta", Shown(song.energy, FormatEnergy));
  }

  lemma TitleIsTitle()
    ensures "title" in TITLES && "title" !in SONG_STARTS
  {}

  lemma TitleRead(title: string, ds: seq<Field>, nfc: Normalizer)
    ensures Several(OwnDirective(Field("title", title), nfc) + ds, false)
       <==> Several(ds, DirectiveValue(title) != [] && ReadBack(DirectiveValue(title), nfc) != [])
  {
    TitleIsTitle();
    var own := OwnDirective(Field("title", title), nfc);
    if own == [] {
      assert own + ds == ds;
    } else {
      assert (own + ds)[1..] == ds;
    }
  }

  lemma TakenUnlessHidden(song: SongExport, nfc: Normalizer)
    requires IsNormalizer(nfc)
    ensures RefusedAsSeveral(SongText(song), nfc) <==> Several(LyricDirectives(song, nfc), Titled(song, nfc))
    ensures Titled(song, nfc) ==> (RefusedAsSeveral(SongText(song), nfc) <==> !HidesNone(song, SONG_STARTS + TITLES, nfc))
  {
    var fields, ds := Fields(song), LyricDirectives(song, nfc);
    ImporterMeets(song, nfc);
    TitleFirst(song);
    OwnDetails(fields[1..], nfc);
    Assoc(OwnDirective(fields[0], nfc), OwnDirectives(fields[1..], nfc), ds);
    TitleRead(song.title, OwnDirectives(fields[1..], nfc) + ds, nfc);
    SkipDetails(OwnDirectives(fields[1..], nfc), ds, Titled(song, nfc));
    SeveralTitled(ds);
    SurvivorsHide(LyricLines(song), SONG_STARTS + TITLES, nfc);
  }

  /** The importer takes an exported song for one song, unless its lyrics hide a
      start or another title: exactly then, if its own title is one to be read. */
  lemma OneSongIsTaken(song: SongExport, nfc: Normalizer)
    requires IsNormalizer(nfc)
    ensures RefusedAsSeveral(SongText(song), nfc) <==> Several(LyricDirectives(song, nfc), Titled(song, nfc))
    ensures Titled(song, nfc) ==>
      (RefusedAsSeveral(SongText(song), nfc) <==> !HidesNone(song, ["new_song", "ns", "title", "t"], nfc))
  {
    TakenUnlessHidden(song, nfc);
    assert SONG_STARTS + TITLES == ["new_song", "ns", "title", "t"];
  }

  // ----- a library ---------------------------------------------------------

  function Total(songs: seq<SongExport>, f: SongExport -> nat): nat {
    if songs == [] then 0 else f(songs[0]) + Total(songs[1..], f)
  }

  /** How many song starts the lyrics of a song hide. */
  function LyricStarts(nfc: Normalizer): SongExport -> nat {
    (song: SongExport) => Named(LyricDirectives(song, nfc), SONG_STARTS)
  }

  lemma {:induction false} OwnStartNothing(fields: seq<Field>, nfc: Normalizer)
    requires NamedAsListed(fields)
    ensures Named(OwnDirectives(fields, nfc), SONG_STARTS) == 0
  {
    if fields != [] {
      OwnStartNothing(fields[1..], nfc);
      FieldIsNoStart(fields[0].name);
      var own := OwnDirective(fields[0], nfc);
      NamedAppend(own, OwnDirectives(fields[1..], nfc), SONG_STARTS);
      assert own != [] ==> own[1..] == [];
    }
  }

  lemma SongStarts(song: SongExport, nfc: Normalizer)
    requires IsNormalizer(nfc)
    ensures Named(Directives(SongText(song), nfc), SONG_STARTS) == Named(LyricDirectives(song, nfc), SONG_STARTS)
  {
    ImporterMeets(song, nfc);
    FieldNames(song);
    OwnStartNothing(Fields(song), nfc);
    NamedAppend(OwnDirectives(Fields(song), nfc), LyricDirectives(song, nfc), SONG_STARTS);
  }

  lemma SeparatorIsClean()
    ensures IsClean(SEPARATOR) && AllAscii(SEPARATOR)
  {}

  lemma SeparatorStarts(nfc: Normalizer)
    requires IsNormalizer(nfc)
    ensures Named(Directives(SEPARATOR, nfc), SONG_STARTS) == 1
  {
    SeparatorIsClean();
    SeparatorReads();
    CleanLine(SEPARATOR, nfc);
    NamedOne(ParseDirective(SEPARATOR), SONG_STARTS);
    assert Parsed(ParseDirective(SEPARATOR))[1..] == [];
  }

  lemma AcrossSeparator(first: string, rest: string, nfc: Normalizer)
    requires IsNormalizer(nfc)
    ensures Directives(first + ("\n" + SEPARATOR + "\n\n") + rest, nfc)
         == Directives(first, nfc) + (Directives(SEPARATOR, nfc) + Directives(rest, nfc))
  {
    SeparatorIs();
    Unpacked(first, SEPARATOR, '\n', rest);
    DirectivesAdd(first, '\n', SEPARATOR + ['\n'] + ([] + ['\n'] + rest), nfc);
    DirectivesAdd(SEPARATOR, '\n', [] + ['\n'] + rest, nfc);
    DirectivesAdd([], '\n', rest, nfc);
    NoDirectives(nfc);
  }

  lemma StartsAcross(first: string, rest: string, nfc: Normalizer)
    requires IsNormalizer(nfc)
    ensures Named(Directives(first + ("\n" + SEPARATOR + "\n\n") + rest, nfc), SONG_STARTS)
         == Named(Directives(first, nfc), SONG_STARTS) + 1 + Named(Directives(rest, nfc), SONG_STARTS)
  {
    AcrossSeparator(first, rest, nfc);
    NamedAppend(Directives(first, nfc), Directives(SEPARATOR, nfc) + Directives(rest, nfc), SONG_STARTS);
    NamedAppend(Directives(SEPARATOR, nfc), Directives(rest, nfc), SONG_STARTS);
    SeparatorStarts(nfc);
  }

  lemma RenderOnly(song: SongExport)
    ensures RenderSongs([song]) == SongText(song)
  {
    assert SongTexts([song]) == [SongText(song)] + SongTexts([]);
  }

  lemma {:induction false} ImporterCountsSongs(songs: seq<SongExport>, nfc: Normalizer)
    requires IsNormalizer(nfc)
    requires songs != []
    ensures Named(Directives(RenderSongs(songs), nfc), SONG_STARTS) == |songs| - 1 + Total(songs, LyricStarts(nfc))
  {
    SongStarts(songs[0], nfc);
    if |songs| == 1 {
      assert songs == [songs[0]] && Total(songs[1..], LyricStarts(nfc)) == 0;
      RenderOnly(songs[0]);
    } else {
      ImporterCountsSongs(songs[1..], nfc);
      RenderFirst(songs);
      StartsAcross(SongText(songs[0]), RenderSongs(songs[1..]), nfc);
    }
  }

  lemma LyricsHideNone(song: SongExport, names: seq<string>, nfc: Normalizer)
    ensures Named(LyricDirectives(song, nfc), names) == 0 <==> HidesNone(song, names, nfc)
  {
    SurvivorsHide(LyricLines(song), names, nfc);
  }

  predicate AllHideNone(songs: seq<SongExport>, names: seq<string>, nfc: Normalizer) {
    forall song :: song in songs ==> HidesNone(song, names, nfc)
  }

  lemma {:induction false} TotalZero(songs: seq<SongExport>, f: SongExport -> nat)
    ensures Total(songs, f) == 0 <==> forall song :: song in songs ==> f(song) == 0
  {
    if songs != [] {
      TotalZero(songs[1..], f);
      assert songs == [songs[0]] + songs[1..];
    }
  }

  lemma NoLyricStarts(songs: seq<SongExport>, nfc: Normalizer)
    ensures Total(songs, LyricStarts(nfc)) == 0 <==> AllHideNone(songs, SONG_STARTS, nfc)
  {
    TotalZero(songs, LyricStarts(nfc));
    forall song | song in songs ensures LyricStarts(nfc)(song) == 0 <==> HidesNone(song, SONG_STARTS, nfc) {
      LyricsHideNone(song, SONG_STARTS, nfc);
    }
  }

  /** The importer meets one song start between two songs of a library, and no
      others, if and only if no line of their lyrics that the export lets through
      hides one. */
  lemma LibraryStarts(songs: seq<SongExport>, nfc: Normalizer)
    requires IsNormalizer(nfc)
    requires songs != []
    ensures Named(Directives(RenderSongs(songs), nfc), SONG_STARTS) == |songs| - 1
      <==> AllHideNone(songs, SONG_STARTS, nfc)
  {
    ImporterCountsSongs(songs, nfc);
    NoLyricStarts(songs, nfc);
  }

  // ----- lyrics that do hide something -------------------------------------

  lemma HiddenLine(song: SongExport, line: string, names: seq<string>, nfc: Normalizer)
    requires song.lyrics == Some(line) && OneLine(line) && Trim(line) != [] && Survives(line) && Hides(line, names, nfc)
    ensures !HidesNone(song, names, nfc)
  {
    SplitOne(line, '\n');
    assert Split(line, '\n')[..0] == [];
    assert LyricLines(song) == [line];
  }

  lemma UnseenFirst(line: string)
    requires line != [] && !IsWhitespace(line[0]) && line[0] != '{'
    ensures Trim(line) != [] && Survives(line)
  {
    Unbraceable(line);
    KeepsBlack(line);
  }

  lemma NormalBrace(line: string, nfc: Normalizer)
    requires CutsAtMarks(nfc) && SparesPlainText(nfc) && line != [] && line[0] == '{'
    ensures nfc(line) == ['{'] + nfc(line[1..])
  {
    assert line == [] + ['{'] + line[1..];
    NormalAcross([], '{', line[1..], nfc);
    PlainIsNormal([], nfc);
  }

  lemma NormalUnseen(c: char, line: string, nfc: Normalizer)
    requires CutsAtMarks(nfc) && SparesPlainText(nfc) && IsInvisible(c) && line != [] && line[0] == '{'
    ensures nfc([c] + line) == [c] + nfc(line)
  {
    assert [c] + line == [c] + ['{'] + line[1..];
    NormalAcross([c], '{', line[1..], nfc);
    NormalBrace(line, nfc);
    PlainIsNormal([c], nfc);
    Assoc([c], ['{'], nfc(line[1..]));
  }

  lemma InvisibleSpares(c: char, line: string, nfc: Normalizer)
    requires IsNormalizer(nfc) && IsInvisible(c) && line != [] && line[0] == '{'
    ensures Directives([c] + line, nfc) == Directives(line, nfc)
  {
    NormalUnseen(c, line, nfc);
    SanitizedAppend([c], nfc(line));
    SanitizedChar(c);
    assert [] + Sanitized(nfc(line)) == Sanitized(nfc(line));
  }

  lemma HiddenUnseen(song: SongExport, line: string, nfc: Normalizer)
    requires IsNormalizer(nfc) && song.lyrics == Some(line) && OneLine(line) && Titled(song, nfc)
    requires line != [] && !IsWhitespace(line[0]) && line[0] != '{' && Hides(line, SONG_STARTS + TITLES, nfc)
    ensures RefusedAsSeveral(SongText(song), nfc)
  {
    UnseenFirst(line);
    HiddenLine(song, line, SONG_STARTS + TITLES, nfc);
    TakenUnlessHidden(song, nfc);
  }

  /** A title behind a character nobody sees is another title to the importer. */
  lemma InvisibleAddsATitle(song: SongExport, c: char, title: string, nfc: Normalizer)
    requires IsNormalizer(nfc)
    requires IsInvisible(c) && (forall x :: x in title ==> IsPlain(x))
    requires song.lyrics == Some([c] + DirectiveLine("title", title)) && Titled(song, nfc)
    ensures RefusedAsSeveral(SongText(song), nfc)
  {
    OneLineDirective("title", title);
    InvisibleTitle(c, title, nfc);
    HiddenUnseen(song, [c] + DirectiveLine("title", title), nfc);
  }

  lemma InvisibleTitle(c: char, title: string, nfc: Normalizer)
    requires IsNormalizer(nfc)
    requires IsInvisible(c) && (forall x :: x in title ==> IsPlain(x))
    ensures Hides([c] + DirectiveLine("title", title), SONG_STARTS + TITLES, nfc)
  {
    TitleIsTitle();
    NameOfField("title");
    OneLineDirective("title", title);
    LineRead("title", title, nfc);
    InvisibleSpares(c, DirectiveLine("title", title), nfc);
    assert Directives(DirectiveLine("title", title), nfc)[1..] == [];
  }

  /** So is a song start past a lone return. */
  lemma LoneReturnStartsASong(song: SongExport, before: string, nfc: Normalizer)
    requires IsNormalizer(nfc)
    requires OneLine(before) && before != [] && !IsWhitespace(before[0]) && before[0] != '{'
    requires song.lyrics == Some(before + ['\r'] + SEPARATOR)
    ensures !HidesNone(song, SONG_STARTS, nfc) && Named(Directives(SongText(song), nfc), SONG_STARTS) >= 1
  {
    var line := before + ['\r'] + SEPARATOR;
    SeparatorIs();
    DirectivesAdd(before, '\r', SEPARATOR, nfc);
    NamedAppend(Directives(before, nfc), Directives(SEPARATOR, nfc), SONG_STARTS);
    SeparatorStarts(nfc);
    UnseenFirst(line);
    HiddenLine(song, line, SONG_STARTS, nfc);
    LyricsHideNone(song, SONG_STARTS, nfc);
    SongStarts(song, nfc);
  }
}

/**
 What an exported song says of itself, field by field, and what a value keeps of its
 characters (`directive_value` and `render_song` of `src/export/chordpro.rs`).
 */
module ChordProFields {
  import opened Options
  import opened Collections
  import opened Text
  import opened ChordPro
  import opened ChordProReading
  import opened ChordProLyrics

  // ----- values ------------------------------------------------------------

  /** What only separates the words of a value when it is written. */
  predicate Separates(c: char) {
    IsWhitespace(c) || IsControl(c) || c == '{' || c == '}'
  }

  /** And when it is read. */
  predicate SeparatesRead(c: char) {
    IsWhitespace(c) || c == '{' || c == '}'
  }

  predicate IsGap(s: string, sep: char -> bool) {
    forall c :: c in s ==> sep(c)
  }

  predicate IsPlainWord(s: string, sep: char -> bool) {
    s != [] && forall c :: c in s ==> !sep(c)
  }

  /** A gap, then each word with the gap behind it. */
  function Woven(first: string, words: seq<string>, gaps: seq<string>): string
    requires |gaps| == |words|
    decreases |words|
  {
    if words == [] then first else first + (words[0] + Woven(gaps[0], words[1..], gaps[1..]))
  }

  /** Between two words something separates them; the value may start or end with a
      gap. */
  predicate IsWeave(first: string, words: seq<string>, gaps: seq<string>, sep: char -> bool) {
    && |gaps| == |words|
    && IsGap(first, sep) && (forall gap :: gap in gaps ==> IsGap(gap, sep))
    && (forall word :: word in words ==> IsPlainWord(word, sep))
    && (forall i :: 0 <= i < |gaps| - 1 ==> gaps[i] != [])
  }

  lemma BlankedAppend(a: string, b: string, blank: char -> bool)
    ensures Blanked(a + b, blank) == Blanked(a, blank) + Blanked(b, blank)
  {}

  /** Blanked, what separates is blank. */
  ghost predicate Blanks(blank: char -> bool, sep: char -> bool) {
    forall c :: sep(c) <==> IsWhitespace(c) || blank(c)
  }

  lemma GapBlanks(gap: string, blank: char -> bool, sep: char -> bool)
    requires Blanks(blank, sep) && IsGap(gap, sep)
    ensures IsBlank(Blanked(gap, blank))
  {
    assert forall i :: 0 <= i < |gap| ==> gap[i] in gap;
  }

  lemma WordStays(word: string, blank: char -> bool, sep: char -> bool)
    requires Blanks(blank, sep) && IsPlainWord(word, sep)
    ensures Blanked(word, blank) == word && forall c :: c in word ==> !IsWhitespace(c)
  {
    forall i | 0 <= i < |word| ensures !blank(word[i]) {
      assert word[i] in word;
    }
  }

  lemma {:induction false} WordTaken(word: string, rest: string)
    requires (forall c :: c in word ==> !IsWhitespace(c)) && (rest == [] || IsWhitespace(rest[0]))
    ensures TakeUntil(word + rest, IsWhitespace) == word
  {
    if word == [] {
      assert word + rest == rest;
    } else {
      assert word[0] in word;
      assert (word + rest)[1..] == word[1..] + rest;
      WordTaken(word[1..], rest);
      assert word == [word[0]] + word[1..];
    }
  }

  lemma WordSplits(gap: string, word: string, rest: string)
    requires IsBlank(gap) && word != [] && (forall c :: c in word ==> !IsWhitespace(c))
    requires rest == [] || IsWhitespace(rest[0])
    ensures SplitWhitespace(gap + (word + rest)) == [word] + SplitWhitespace(rest)
  {
    assert word[0] in word;
    StartCutOff(gap, word + rest);
    WordTaken(word, rest);
    assert (word + rest)[|word|..] == rest;
  }

  lemma BlankHasNoWord(gap: string)
    requires IsBlank(gap)
    ensures SplitWhitespace(gap) == []
  {
    StartCutOff(gap, []);
    assert gap + [] == gap;
  }

  lemma WeaveStarts(first: string, words: seq<string>, gaps: seq<string>)
    requires |gaps| == |words| && (words == [] || first != [])
    ensures first == Woven(first, words, gaps) || (first != [] && Woven(first, words, gaps)[0] == first[0])
  {}

  lemma RestOfWeave(first: string, words: seq<string>, gaps: seq<string>, sep: char -> bool)
    requires IsWeave(first, words, gaps, sep) && words != []
    ensures IsWeave(gaps[0], words[1..], gaps[1..], sep) && (words[1..] == [] || gaps[0] != [])
    ensures Woven(gaps[0], words[1..], gaps[1..]) != [] ==> sep(Woven(gaps[0], words[1..], gaps[1..])[0])
  {
    WeaveStarts(gaps[0], words[1..], gaps[1..]);
    assert gaps[0] in gaps && forall i :: 0 <= i < |gaps[0]| ==> gaps[0][i] in gaps[0];
    assert forall i :: 0 <= i < |gaps[1..]| ==> gaps[1..][i] == gaps[i + 1];
  }

  lemma {:induction false} WordsOfWeave(first: string, words: seq<string>, gaps: seq<string>, blank: char -> bool, sep: char -> bool)
    requires Blanks(blank, sep) && IsWeave(first, words, gaps, sep)
    ensures SplitWhitespace(Blanked(Woven(first, words, gaps), blank)) == words
    decreases |words|
  {
    GapBlanks(first, blank, sep);
    if words == [] {
      BlankHasNoWord(Blanked(first, blank));
    } else {
      var rest := Woven(gaps[0], words[1..], gaps[1..]);
      RestOfWeave(first, words, gaps, sep);
      WordsOfWeave(gaps[0], words[1..], gaps[1..], blank, sep);
      BlankedAppend(first, words[0] + rest, blank);
      BlankedAppend(words[0], rest, blank);
      assert words[0] in words;
      WordStays(words[0], blank, sep);
      WordSplits(Blanked(first, blank), words[0], Blanked(rest, blank));
    }
  }

  /** A value keeps its words letter by letter and in order, with one space in place
      of whatever stands between two of them, up to 255 characters. */
  lemma WordsAreKept(first: string, words: seq<string>, gaps: seq<string>)
    requires IsWeave(first, words, gaps, Separates)
    ensures var whole := Join(words, " ");
      DirectiveValue(Woven(first, words, gaps)) == if |whole| <= 255 then whole else whole[..255]
  {
    WordsOfWeave(first, words, gaps, BreaksOut, Separates);
  }

  /** So does a value that is read, at any length. */
  lemma WordsAreRead(first: string, words: seq<string>, gaps: seq<string>)
    requires IsWeave(first, words, gaps, SeparatesRead)
    ensures CleanValue(Woven(first, words, gaps)) == Join(words, " ")
  {
    WordsOfWeave(first, words, gaps, IsBrace, SeparatesRead);
  }

  lemma LongerWord(c: char, words: seq<string>, gaps: seq<string>, sep: char -> bool) returns (longer: seq<string>)
    requires IsWeave([], words, gaps, sep) && words != [] && !sep(c)
    ensures |longer| == |words| && IsWeave([], longer, gaps, sep)
    ensures Woven([], longer, gaps) == [c] + Woven([], words, gaps)
  {
    longer := [[c] + words[0]] + words[1..];
    assert words[0] in words && IsPlainWord(longer[0], sep);
    assert longer[1..] == words[1..];
    assert forall word :: word in longer ==> word == longer[0] || word in words;
  }

  lemma NewWord(c: char, first: string, words: seq<string>, gaps: seq<string>, sep: char -> bool)
    requires IsWeave(first, words, gaps, sep) && (words == [] || first != []) && !sep(c)
    ensures IsWeave([], [[c]] + words, [first] + gaps, sep)
    ensures Woven([], [[c]] + words, [first] + gaps) == [c] + Woven(first, words, gaps)
  {
    assert ([[c]] + words)[1..] == words && ([first] + gaps)[1..] == gaps;
    assert IsPlainWord([c], sep);
  }

  /** Every value is woven of words and gaps. */
  lemma {:induction false} EveryValueIsWoven(value: string, sep: char -> bool)
      returns (first: string, words: seq<string>, gaps: seq<string>)
    ensures IsWeave(first, words, gaps, sep) && value == Woven(first, words, gaps)
  {
    if value == [] {
      first, words, gaps := [], [], [];
    } else {
      var c := value[0];
      first, words, gaps := EveryValueIsWoven(value[1..], sep);
      assert value == [c] + value[1..];
      if sep(c) {
        first := [c] + first;
      } else if first == [] && words != [] {
        words := LongerWord(c, words, gaps, sep);
      } else {
        NewWord(c, first, words, gaps, sep);
        words, gaps, first := [[c]] + words, [first] + gaps, [];
      }
    }
  }

  // ----- a song ------------------------------------------------------------

  /** A line for a value that is there and has a word in it. */
  function Said(name: string, value: Option<string>): string {
    if value.Some? && DirectiveValue(value.value) != []
    then "{" + name + ": " + DirectiveValue(value.value) + "}" + "\n"
    else []
  }

  lemma FieldSaid(fields: seq<Field>, name: string, value: Option<string>)
    ensures Written(HeaderLines(fields + OptionalField(name, value))) == Written(HeaderLines(fields)) + Said(name, value)
  {
    if value.Some? {
      PushField(fields, name, value.value);
    } else {
      assert fields + [] == fields;
    }
  }

  function InDigits(value: Option<int>, before: string): Option<string> {
    match value
    case Some(n) => Some(before + (if n < 0 then "-" + Digits(-n) else Digits(n)))
    case None => None
  }

  /** Whole minutes, a colon and the seconds left over, in two digits. */
  function AsClock(minutes: nat, seconds: nat): string {
    Digits(minutes) + ":" + (if seconds < 10 then "0" + Digits(seconds) else Digits(seconds))
  }

  /** A length below zero is shown as none. */
  function InMinutes(value: Option<int>): Option<string> {
    match value
    case Some(n) => Some(if n < 0 then AsClock(0, 0) else AsClock(n / 60, n % 60))
    case None => None
  }

  lemma NumberShown(value: Option<int>)
    ensures InDigits(value, []) == Shown(value, Decimal)
    ensures InDigits(value, "energy ") == Shown(value, FormatEnergy)
  {
    if value.Some? {
      assert [] + Decimal(value.value) == Decimal(value.value);
    }
  }

  lemma LengthShown(value: Option<int>)
    ensures InMinutes(value) == Shown(value, FormatDuration)
  {
    if value.Some? {
      var s: nat := if value.value < 0 then 0 else value.value;
      assert FormatDuration(value.value) == AsClock(s / 60, s % 60) by {
        assert [] + Digits(s % 60) == Digits(s % 60);
        Assoc(Digits(s / 60) + ":", if s % 60 < 10 then "0" else [], Digits(s % 60));
      }
    }
  }

  lemma HeaderSays(song: SongExport)
    ensures Written(HeaderLines(Fields(song))) ==
      Said("title", Some(song.title)) + Said("artist", song.artistName) + Said("key", song.tonality)
      + Said("tempo", Shown(song.tempo, Decimal)) + Said("time", song.timeSignature)
      + Said("capo", Shown(song.capo, Decimal)) + Said("duration", Shown(song.duration, FormatDuration))
      + Said("meta", Shown(song.energy, FormatEnergy))
  {
    var f1 := [Field("title", song.title)];
    var f2 := f1 + OptionalField("artist", song.artistName);
    var f3 := f2 + OptionalField("key", song.tonality);
    var f4 := f3 + OptionalField("tempo", Shown(song.tempo, Decimal));
    var f5 := f4 + OptionalField("time", song.timeSignature);
    var f6 := f5 + OptionalField("capo", Shown(song.capo, Decimal));
    var f7 := f6 + OptionalField("duration", Shown(song.duration, FormatDuration));
    FieldSaid([], "title", Some(song.title));
    assert [] + OptionalField("title", Some(song.title)) == f1 && [] + Said("title", Some(song.title)) == Said("title", Some(song.title));
    FieldSaid(f1, "artist", song.artistName);
    FieldSaid(f2, "key", song.tonality);
    FieldSaid(f3, "tempo", Shown(song.tempo, Decimal));
    FieldSaid(f4, "time", song.timeSignature);
    FieldSaid(f5, "capo", Shown(song.capo, Decimal));
    FieldSaid(f6, "duration", Shown(song.duration, FormatDuration));
    FieldSaid(f7, "meta", Shown(song.energy, FormatEnergy));
  }

  /** Each field of the song under its own name, in this order, then a blank line and
      what stands for the lyrics. */
  lemma SongSays(song: SongExport)
    ensures SongText(song) ==
      Said("title", Some(song.title)) + Said("artist", song.artistName) + Said("key", song.tonality)
      + Said("tempo", InDigits(song.tempo, [])) + Said("time", song.timeSignature)
      + Said("capo", InDigits(song.capo, [])) + Said("duration", InMinutes(song.duration))
      + Said("meta", InDigits(song.energy, "energy ")) + "\n" + Body(song) + "\n"
  {
    NumberShown(song.tempo);
    NumberShown(song.capo);
    NumberShown(song.energy);
    LengthShown(song.duration);
    HeaderSays(song);
    EndOfSong(HeaderLines(Fields(song)), Body(song));
  }

  lemma BetweenSongs() returns (between: string)
    ensures between == "\n" + SEPARATOR + "\n\n" && between == "\n{new_song}\n\n"
  {
    between := "\n" + SEPARATOR + "\n\n";
  }

  /** A library is its songs in order with this between two of them. */
  lemma LibrarySays(songs: seq<SongExport>) returns (between: string)
    ensures between == "\n{new_song}\n\n"
    ensures |songs| == 1 ==> RenderSongs(songs) == SongText(songs[0])
    ensures |songs| > 1 ==> RenderSongs(songs) == SongText(songs[0]) + between + RenderSongs(songs[1..])
  {
    between := BetweenSongs();
    if |songs| == 1 {
      OneText(songs);
    } else if |songs| > 1 {
      RenderFirst(songs);
    }
  }

  lemma OneText(songs: seq<SongExport>)
    requires |songs| == 1
    ensures RenderSongs(songs) == SongText(songs[0])
  {
    assert SongTexts(songs[1..]) == [];
  }

  // ----- the importer ------------------------------------------------------

  /** One brace, a name, perhaps a colon and what is behind it, one brace; blanks around
      the line and around the name. */
  predicate IsWholeDirective(line: string, l: Layout, tail: string) {
    && line == l.before + ("{" + (Middle(l) + l.rest) + "}") + tail
    && IsBlank(l.before) && IsBlank(l.gap) && IsBlank(l.after) && IsBlank(tail)
    && ':' !in l.word && (l.word == [] || IsSolid(l.word))
    && (l.rest != [] ==> l.rest[0] == ':')
  }

  function AsField(l: Layout): Field {
    Field(Lower(l.word), CleanValue(if l.rest == [] then [] else l.rest[1..]))
  }

  lemma NameTrims(l: Layout)
    requires IsBlank(l.gap) && IsBlank(l.after) && ':' !in l.word && (l.word == [] || IsSolid(l.word))
    ensures Trim(Middle(l)) == l.word && ':' !in Middle(l)
  {
    if l.word == [] {
      BlankTrims(Middle(l));
    } else {
      TrimAround(l.gap, l.word, l.after);
    }
  }

  lemma WholeParses(l: Layout)
    requires IsBlank(l.gap) && IsBlank(l.after) && ':' !in l.word && (l.word == [] || IsSolid(l.word))
    requires l.rest != [] ==> l.rest[0] == ':'
    ensures ParseInner(Middle(l) + l.rest) == AsField(l)
  {
    NameTrims(l);
    if l.rest == [] {
      assert Middle(l) + l.rest == Middle(l);
      WholeTaken(Middle(l));
    } else {
      assert Middle(l) + l.rest == Middle(l) + [':'] + l.rest[1..];
      TakeUntilAt(Middle(l), ':', l.rest[1..], IsColon);
    }
  }

  lemma InnerIsWhole(inner: string) returns (l: Layout)
    ensures inner == Middle(l) + l.rest && l.before == l.braces == []
    ensures IsBlank(l.gap) && IsBlank(l.after) && ':' !in l.word && (l.word == [] || IsSolid(l.word))
    ensures l.rest != [] ==> l.rest[0] == ':'
  {
    var name := TakeUntil(inner, IsColon);
    var gap, after := TrimCut(name);
    if |name| < |inner| {
      Stopped(inner, IsColon);
    }
    l := Layout([], [], gap, Trim(name), after, inner[|name|..]);
    assert name == Middle(l);
    TrimmedIsSolid(name);
    forall i | 0 <= i < |l.word| ensures l.word[i] != ':' {
      assert l.word[i] == name[|gap| + i] && name[|gap| + i] in name;
    }
  }

  lemma TrimmedIsSolid(s: string)
    ensures Trim(s) == [] || IsSolid(Trim(s))
  {}

  lemma InnerOf(trimmed: string) returns (inner: string)
    requires Braced(trimmed)
    ensures trimmed == "{" + inner + "}" && ParseTrimmed(trimmed) == Some(ParseInner(inner))
  {
    inner := trimmed[1..|trimmed| - 1];
  }

  lemma WithEnds(before: string, l: Layout, tail: string)
    requires IsBlank(before) && IsBlank(tail) && IsBlank(l.gap) && IsBlank(l.after)
    requires ':' !in l.word && (l.word == [] || IsSolid(l.word)) && (l.rest != [] ==> l.rest[0] == ':')
    ensures IsWholeDirective(before + ("{" + (Middle(l) + l.rest) + "}") + tail, l.(before := before), tail)
  {}

  lemma TakenIsWhole(line: string, field: Field) returns (l: Layout, tail: string)
    requires ParseDirective(line) == Some(field)
    ensures IsWholeDirective(line, l, tail) && field == AsField(l)
  {
    var before, after := TrimCut(line);
    var inner := InnerOf(Trim(line));
    var parts := InnerIsWhole(inner);
    WholeParses(parts);
    WithEnds(before, parts, after);
    l, tail := parts.(before := before), after;
  }

  lemma WholeIsTaken(line: string, l: Layout, tail: string)
    requires IsWholeDirective(line, l, tail)
    ensures ParseDirective(line) == Some(AsField(l))
  {
    var inner := Middle(l) + l.rest;
    var trimmed := "{" + inner + "}";
    TrimAround(l.before, trimmed, tail);
    assert trimmed[1..|trimmed| - 1] == inner;
    WholeParses(l);
  }

  /** The importer takes exactly such a line for a directive, and this one. */
  lemma ImporterTakes(line: string, field: Field)
    ensures ParseDirective(line) == Some(field)
      <==> exists l: Layout, tail: string :: IsWholeDirective(line, l, tail) && field == AsField(l)
  {
    if ParseDirective(line) == Some(field) {
      var l, tail := TakenIsWhole(line, field);
    }
    forall l: Layout, tail: string | IsWholeDirective(line, l, tail)
      ensures ParseDirective(line) == Some(AsField(l))
    {
      WholeIsTaken(line, l, tail);
    }
  }
}

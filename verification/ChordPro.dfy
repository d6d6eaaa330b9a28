/**
 The ChordPro export of a song and of a whole library (`src/export/chordpro.rs`),
 and how an importer reads it back.
 */
module ChordPro {
  import opened Options
  import opened Collections
  import opened Text

  const MAX_DIRECTIVE_VALUE := 255
  const COMMENT := "# "
  const NO_LYRICS := COMMENT + "No lyrics provided."
  const NEW_SONG := "new_song"
  const SONG_STARTS := [NEW_SONG, "ns"]
  const EMITTED_DIRECTIVES := SONG_STARTS + ["title", "t", "subtitle", "st", "artist", "key", "tempo", "time", "capo",
                                             "duration", "meta"]
  const SEPARATOR := "{" + NEW_SONG + "}"

  datatype SongExport = SongExport(
    title: string,
    artistName: Option<string>,
    tonality: Option<string>,
    tempo: Option<int>,
    lyrics: Option<string>,
    timeSignature: Option<string>,
    capo: Option<int>,
    duration: Option<int>,
    energy: Option<int>)

  // ----- values ------------------------------------------------------------

  /** The runs of characters between whitespace. */
  function SplitWhitespace(s: string): (words: seq<string>)
    decreases |s|
  {
    var t := TrimStart(s);
    if t == [] then []
    else
      var word := TakeUntil(t, IsWhitespace);
      assert word != [];
      [word] + SplitWhitespace(t[|word|..])
  }

  function Spaced(s: string): string {
    Join(SplitWhitespace(s), " ")
  }

  predicate IsBrace(c: char) {
    c == '{' || c == '}'
  }

  function Blanked(s: string, blank: char -> bool): (r: string)
    ensures |r| == |s| && forall i :: 0 <= i < |s| ==> r[i] == if blank(s[i]) then ' ' else s[i]
  {
    seq(|s|, i requires 0 <= i < |s| => if blank(s[i]) then ' ' else s[i])
  }

  predicate BreaksOut(c: char) {
    IsControl(c) || IsBrace(c)
  }

  function Take(s: string, n: nat): (r: string) {
    if |s| <= n then s else s[..n]
  }

  /** A value that stays on its line and inside its braces. */
  function DirectiveValue(value: string): string {
    Take(Spaced(Blanked(value, BreaksOut)), MAX_DIRECTIVE_VALUE)
  }

  function Digits(n: nat): (r: string)
    ensures r != []
  {
    var last := [(48 + n % 10) as char];
    if n < 10 then last else Digits(n / 10) + last
  }

  function Decimal(n: int): string {
    if n < 0 then "-" + Digits(-n) else Digits(n)
  }

  /** Minutes and seconds; hours roll into the minutes, and a negative length
      counts as none. */
  function FormatDuration(seconds: int): string {
    var s: nat := if seconds < 0 then 0 else seconds;
    Digits(s / 60) + ":" + (if s % 60 < 10 then "0" else "") + Digits(s % 60)
  }

  // ----- lyrics ------------------------------------------------------------

  function WithoutReturn(line: string): string {
    if line != [] && line[|line| - 1] == '\r' then line[..|line| - 1] else line
  }

  function EachWithoutReturn(lines: seq<string>): seq<string> {
    if lines == [] then [] else [WithoutReturn(lines[0])] + EachWithoutReturn(lines[1..])
  }

  /** A line ends at `\n` or `\r\n`; nothing after the last one is no line. */
  function Lines(s: string): seq<string> {
    var parts := Split(s, '\n');
    var last := parts[|parts| - 1];
    EachWithoutReturn(parts[..|parts| - 1]) + if last == [] then [] else [last]
  }

  predicate EndsName(c: char) {
    c == ':' || c == '}'
  }

  function LooseName(trimmed: string): string {
    Lower(Trim(TakeUntil(TrimStartOf(trimmed, '{'), EndsName)))
  }

  /** The directive a line would be read as, its braces taken loosely. */
  function Reads(line: string): Option<string> {
    if StartsWith(TrimStart(line), "{") then Some(LooseName(Trim(line))) else None
  }

  predicate Survives(line: string) {
    !(Reads(line).Some? && Reads(line).value in EMITTED_DIRECTIVES)
  }

  function Survivors(lines: seq<string>): seq<string> {
    if lines == [] then []
    else if Survives(lines[0]) then [lines[0]] + Survivors(lines[1..])
    else Survivors(lines[1..])
  }

  function EmbeddableLyrics(lyrics: string): string {
    Join(Survivors(Lines(lyrics)), "\n")
  }

  function Body(song: SongExport): string {
    if song.lyrics.Some? && Trim(song.lyrics.value) != [] then EmbeddableLyrics(song.lyrics.value)
    else NO_LYRICS
  }

  // ----- a song and a library ----------------------------------------------

  datatype Field = Field(name: string, value: string)

  function OptionalField(name: string, value: Option<string>): seq<Field> {
    if value.Some? then [Field(name, value.value)] else []
  }

  function Shown(value: Option<int>, format: int -> string): Option<string> {
    if value.Some? then Some(format(value.value)) else None
  }

  function FormatEnergy(energy: int): string {
    "energy " + Decimal(energy)
  }

  /** What a song says of itself, in the order it is written. */
  function Fields(song: SongExport): seq<Field> {
    [Field("title", song.title)]
    + OptionalField("artist", song.artistName)
    + OptionalField("key", song.tonality)
    + OptionalField("tempo", Shown(song.tempo, Decimal))
    + OptionalField("time", song.timeSignature)
    + OptionalField("capo", Shown(song.capo, Decimal))
    + OptionalField("duration", Shown(song.duration, FormatDuration))
    + OptionalField("meta", Shown(song.energy, FormatEnergy))
  }

  function DirectiveLine(name: string, value: string): string {
    "{" + name + ": " + value + "}"
  }

  /** An empty value writes no directive. */
  function FirstLine(field: Field): seq<string> {
    var value := DirectiveValue(field.value);
    if value == [] then [] else [DirectiveLine(field.name, value)]
  }

  function HeaderLines(fields: seq<Field>): seq<string> {
    if fields == [] then [] else FirstLine(fields[0]) + HeaderLines(fields[1..])
  }

  /** Every line with its newline. */
  function Written(lines: seq<string>): string {
    if lines == [] then [] else lines[0] + "\n" + Written(lines[1..])
  }

  function SongText(song: SongExport): string {
    Written(HeaderLines(Fields(song)) + [[]] + [Body(song)])
  }

  function SongTexts(songs: seq<SongExport>): seq<string> {
    if songs == [] then [] else [SongText(songs[0])] + SongTexts(songs[1..])
  }

  function RenderSongs(songs: seq<SongExport>): string {
    Join(SongTexts(songs), "\n" + SEPARATOR + "\n\n")
  }

  // ----- writing a song ----------------------------------------------------

  lemma {:induction false} WrittenAppend(a: seq<string>, b: seq<string>)
    ensures Written(a + b) == Written(a) + Written(b)
  {
    if a == [] {
      assert a + b == b;
    } else {
      WrittenAppend(a[1..], b);
      assert (a + b)[1..] == a[1..] + b;
    }
  }

  lemma {:induction false} HeaderAppend(a: seq<Field>, b: seq<Field>)
    ensures HeaderLines(a + b) == HeaderLines(a) + HeaderLines(b)
  {
    if a == [] {
      assert a + b == b;
    } else {
      HeaderAppend(a[1..], b);
      assert (a + b)[1..] == a[1..] + b;
      Assoc(FirstLine(a[0]), HeaderLines(a[1..]), HeaderLines(b));
    }
  }

  /** What one push appends. */
  function Pushed(name: string, value: string): string {
    var clean := DirectiveValue(value);
    if clean == [] then [] else DirectiveLine(name, clean) + "\n"
  }

  lemma PushField(fields: seq<Field>, name: string, value: string)
    ensures Written(HeaderLines(fields + [Field(name, value)])) == Written(HeaderLines(fields)) + Pushed(name, value)
  {
    var more := [Field(name, value)];
    HeaderAppend(fields, more);
    WrittenAppend(HeaderLines(fields), HeaderLines(more));
    var clean := DirectiveValue(value);
    assert more[1..] == [];
    if clean != [] {
      assert HeaderLines(more) == [DirectiveLine(name, clean)];
      assert Written([DirectiveLine(name, clean)]) == DirectiveLine(name, clean) + "\n" + [];
    }
  }

  method Push(out: string, name: string, value: string) returns (out': string)
    ensures out' == out + Pushed(name, value)
  {
    out' := out;
    var clean := DirectiveValue(value);
    if clean != [] {
      out' := out' + ("{" + name + ": " + clean + "}" + "\n");
    }
  }

  /** `out` holds the directives of `fields`. */
  ghost predicate Holds(out: string, fields: seq<Field>) {
    out == Written(HeaderLines(fields))
  }

  method PushOptional(out: string, name: string, value: Option<string>, ghost fields: seq<Field>)
    returns (out': string, ghost fields': seq<Field>)
    requires Holds(out, fields)
    ensures fields' == fields + OptionalField(name, value)
    ensures Holds(out', fields')
  {
    fields' := fields + OptionalField(name, value);
    if value.Some? {
      out' := Push(out, name, value.value);
      PushField(fields, name, value.value);
    } else {
      out' := out;
      assert fields + [] == fields;
    }
  }

  lemma EndOfSong(header: seq<string>, body: string)
    ensures Written(header + [[]] + [body]) == Written(header) + "\n" + body + "\n"
  {
    WrittenAppend(header + [[]], [body]);
    WrittenAppend(header, [[]]);
    assert Written([[]]) == "\n";
    assert Written([body]) == body + "\n";
  }

  method RenderHeader(song: SongExport) returns (out: string)
    ensures Holds(out, Fields(song))
  {
    ghost var fields := [Field("title", song.title)];
    out := [];
    out := Push(out, "title", song.title);
    PushField([], "title", song.title);
    out, fields := PushOptional(out, "artist", song.artistName, fields);
    out, fields := PushOptional(out, "key", song.tonality, fields);
    out, fields := PushOptional(out, "tempo", Shown(song.tempo, Decimal), fields);
    out, fields := PushOptional(out, "time", song.timeSignature, fields);
    out, fields := PushOptional(out, "capo", Shown(song.capo, Decimal), fields);
    out, fields := PushOptional(out, "duration", Shown(song.duration, FormatDuration), fields);
    out, fields := PushOptional(out, "meta", Shown(song.energy, FormatEnergy), fields);
  }

  /** The song's directives in order, a blank line, the lyrics. */
  method RenderSong(song: SongExport) returns (out: string)
    ensures out == SongText(song)
  {
    out := RenderHeader(song);
    EndOfSong(HeaderLines(Fields(song)), Body(song));
    out := out + "\n";
    if song.lyrics.Some? && Trim(song.lyrics.value) != [] {
      out := out + EmbeddableLyrics(song.lyrics.value);
    } else {
      out := out + NO_LYRICS;
    }
    out := out + "\n";
  }
}

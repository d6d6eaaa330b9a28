/**
 Requests on setlists, interleaved statement by statement. `requests` holds how
 far each has come; a request that died stays where it was for good.
 */
module SetlistScope {
  import opened Options
  import opened Collections
  import opened BandLibrary

  /** Adding a song by hand, or accepting a suggestion of it for `band`. */
  datatype Job =
    | Add(setlist: Id, source: Id, actor: Id)
    | Accept(setlist: Id, source: Id, actor: Id, band: Id)

  datatype Phase =
    | Begun
    | Reading(band: Id)
    | Looking(band: Id)
    | Copying(band: Id)
    | Checking(song: Id)
    | Linking(song: Id)
    | Done(song: Id)
    | Failed

  datatype Request = Request(job: Job, phase: Phase)

  /** `seen` remembers which song was ever in which setlist. */
  datatype State = State(lib: Library, requests: map<Id, Request>, seen: set<(Id, Id)>)

  const INIT := State(Library(map[], map[]), map[], {})

  datatype Step =
    | NewSong(song: Id, owner: Id)
    | NewBand(band: Id, repertoire: Id, owner: Id)
    | NewSetlist(setlist: Id, of: Option<Id>, owner: Id)
    | TrashSetlist(setlist: Id)
    | RestoreSetlist(setlist: Id)
    | Begin(r: Id, job: Job)
    | Open(r: Id)
    | Read(r: Id)
    | Look(r: Id, found: Option<Id>)
    | Copy(r: Id, found: Option<Id>, newId: Id)
    | Check(r: Id)
    | Link(r: Id, repertoire: Id)
    | Fail(r: Id)
    | Remove(setlist: Id, song: Id)
    | Trash(song: Id)
    | Restore(song: Id)

  predicate At(s: State, r: Id, phase: Phase) {
    r in s.requests && s.requests[r].phase == phase
  }

  predicate Going(s: State, r: Id) {
    r in s.requests && !s.requests[r].phase.Done? && !s.requests[r].phase.Failed?
  }

  /** The setlist a link goes through to: the band's repertoire, if there is one
      to go to, or any (it is not touched then). */
  predicate RepertoireFor(lib: Library, setlist: Id, repertoire: Id) {
    && setlist in lib.setlists
    && repertoire in lib.setlists
    && (GoesToRepertoire(lib, setlist) ==> IsRepertoire(lib, repertoire, lib.setlists[setlist].band.value))
  }

  predicate NoRepertoire(lib: Library, band: Id) {
    forall id :: id in lib.setlists ==> !IsRepertoire(lib, id, band)
  }

  ghost predicate HasRepertoire(lib: Library, band: Id) {
    exists id :: IsRepertoire(lib, id, band)
  }

  /** Restoring is refused while the band has another live copy. */
  predicate CanRestore(lib: Library, song: Id) {
    && song in lib.songs
    && !lib.songs[song].live
    && (lib.songs[song].band.Some? && lib.songs[song].forkedFrom.Some? ==>
          NoLiveCopy(lib, lib.songs[song].band.value, lib.songs[song].forkedFrom.value))
  }

  ghost predicate Enabled(s: State, step: Step) {
    match step
    case NewSong(song, _) => song !in s.lib.songs
    case NewBand(band, repertoire, _) => NoRepertoire(s.lib, band) && repertoire !in s.lib.setlists
    case NewSetlist(setlist, band, _) => setlist !in s.lib.setlists && (band.Some? ==> HasRepertoire(s.lib, band.value))
    case TrashSetlist(setlist) => LiveSetlist(s.lib, setlist) && !s.lib.setlists[setlist].isRepertoire
    case RestoreSetlist(setlist) => setlist in s.lib.setlists && !s.lib.setlists[setlist].live
    case Begin(r, job) => r !in s.requests && (job.Add? ==> LiveSong(s.lib, job.source))
    case Open(r) => At(s, r, Begun)
    case Read(r) => r in s.requests && s.requests[r].phase.Reading?
    case Look(r, found) =>
      && r in s.requests && s.requests[r].phase.Looking?
      && IsFork(s.lib, s.requests[r].phase.band, s.requests[r].job.source, found)
    case Copy(r, found, newId) =>
      && r in s.requests && s.requests[r].phase.Copying?
      && IsFork(s.lib, s.requests[r].phase.band, s.requests[r].job.source, found)
      && newId !in s.lib.songs
    case Check(r) => r in s.requests && s.requests[r].phase.Checking?
    case Link(r, repertoire) =>
      && r in s.requests && s.requests[r].phase.Linking?
      && (LiveSetlist(s.lib, s.requests[r].job.setlist) ==> RepertoireFor(s.lib, s.requests[r].job.setlist, repertoire))
    case Fail(r) => Going(s, r)
    case Remove(setlist, song) =>
      LiveSetlist(s.lib, setlist) && !s.lib.setlists[setlist].isRepertoire && HasSong(s.lib, setlist, song)
    case Trash(song) => LiveSong(s.lib, song)
    case Restore(song) => CanRestore(s.lib, song)
  }

  /** Where a request goes once it has its setlist. */
  function Opened(lib: Library, job: Job): Phase {
    if !LiveSetlist(lib, job.setlist) then Failed
    else
      var band := lib.setlists[job.setlist].band;
      if job.Accept? && band != Some(job.band) then Failed
      else if band.Some? then Reading(band.value)
      else if job.source in lib.songs && lib.songs[job.source].band == None then Checking(job.source)
      else Failed
  }

  /** Where it goes once it has the song: a band's setlist takes the band's own
      songs, and copies of personal ones. */
  function AfterReading(lib: Library, band: Id, source: Id): Phase {
    if !LiveSong(lib, source) then Failed
    else if lib.songs[source].band == Some(band) then Checking(source)
    else if lib.songs[source].band.Some? then Failed
    else Looking(band)
  }

  function AfterChecking(lib: Library, job: Job, song: Id): Phase {
    if !HasSong(lib, job.setlist, song) then Linking(song)
    else if job.Accept? then Done(song)
    else Failed
  }

  function ToPhase(s: State, r: Id, phase: Phase): State
    requires r in s.requests
  {
    s.(requests := s.requests[r := s.requests[r].(phase := phase)])
  }

  function Linked(s: State, r: Id, song: Id, repertoire: Id): State
    requires r in s.requests
    requires LiveSetlist(s.lib, s.requests[r].job.setlist) ==> RepertoireFor(s.lib, s.requests[r].job.setlist, repertoire)
  {
    var setlist := s.requests[r].job.setlist;
    if !LiveSetlist(s.lib, setlist) then ToPhase(s, r, Failed)
    else
      var into := if GoesToRepertoire(s.lib, setlist) then {(setlist, song), (repertoire, song)} else {(setlist, song)};
      ToPhase(s, r, Done(song)).(lib := AddSong(s.lib, setlist, song, repertoire), seen := s.seen + into)
  }

  function WithLib(s: State, lib: Library): State {
    s.(lib := lib)
  }

  function Added(lib: Library, id: Id, setlist: Setlist): Library {
    lib.(setlists := lib.setlists[id := setlist])
  }

  function SetlistLive(lib: Library, id: Id, live: bool): Library
    requires id in lib.setlists
  {
    lib.(setlists := lib.setlists[id := lib.setlists[id].(live := live)])
  }

  ghost function Apply(s: State, step: Step): State
    requires Enabled(s, step)
  {
    match step
    case NewSong(song, owner) => WithLib(s, s.lib.(songs := s.lib.songs[song := Song(None, None, owner, true)]))
    case NewBand(band, repertoire, owner) =>
      WithLib(s, Added(s.lib, repertoire, Setlist(Some(band), true, owner, true, [])))
    case NewSetlist(setlist, band, owner) => WithLib(s, Added(s.lib, setlist, Setlist(band, false, owner, true, [])))
    case TrashSetlist(setlist) => WithLib(s, SetlistLive(s.lib, setlist, false))
    case RestoreSetlist(setlist) => WithLib(s, SetlistLive(s.lib, setlist, true))
    case Begin(r, job) => s.(requests := s.requests[r := Request(job, Begun)])
    case Open(r) => ToPhase(s, r, Opened(s.lib, s.requests[r].job))
    case Read(r) => ToPhase(s, r, AfterReading(s.lib, s.requests[r].phase.band, s.requests[r].job.source))
    case Look(r, found) =>
      ToPhase(s, r, if found.Some? then Checking(found.value) else Copying(s.requests[r].phase.band))
    case Copy(r, found, newId) =>
      var job := s.requests[r].job;
      var (lib, song) := CopyFor(s.lib, s.requests[r].phase.band, job.source, job.actor, found, newId);
      ToPhase(WithLib(s, lib), r, Checking(song))
    case Check(r) => ToPhase(s, r, AfterChecking(s.lib, s.requests[r].job, s.requests[r].phase.song))
    case Link(r, repertoire) => Linked(s, r, s.requests[r].phase.song, repertoire)
    case Fail(r) => ToPhase(s, r, Failed)
    case Remove(setlist, song) => WithLib(s, RemoveSong(s.lib, setlist, song))
    case Trash(song) => WithLib(s, TrashSong(s.lib, song))
    case Restore(song) => WithLib(s, SetLive(s.lib, song, true))
  }

  ghost predicate IsRun(run: seq<State>, steps: seq<Step>) {
    && |run| == |steps| + 1
    && run[0] == INIT
    && forall i :: 0 <= i < |steps| ==> Enabled(run[i], steps[i]) && run[i + 1] == Apply(run[i], steps[i])
  }

  // ----- what every step keeps ---------------------------------------------

  /** A setlist's songs are of its own band, or personal ones if it is personal. */
  predicate InScope(lib: Library) {
    forall l, song :: l in lib.setlists && song in lib.setlists[l].songs ==>
      song in lib.songs && lib.songs[song].band == lib.setlists[l].band
  }

  predicate NoSongTwice(lib: Library) {
    forall l :: l in lib.setlists ==> Distinct(lib.setlists[l].songs)
  }

  /** A band has at most one live copy of a song. */
  ghost predicate OneCopy(lib: Library) {
    forall a, b, band, source :: IsLiveCopy(lib, a, band, source) && IsLiveCopy(lib, b, band, source) ==> a == b
  }

  ghost predicate OneRepertoire(lib: Library) {
    forall a, b, band :: IsRepertoire(lib, a, band) && IsRepertoire(lib, b, band) ==> a == b
  }

  /** Every song a band plays is in its repertoire. */
  ghost predicate AllInRepertoire(lib: Library) {
    forall l :: l in lib.setlists && lib.setlists[l].band.Some? ==> CoveredBy(lib, l)
  }

  ghost predicate CoveredBy(lib: Library, l: Id)
    requires l in lib.setlists && lib.setlists[l].band.Some?
  {
    exists k :: IsRepertoire(lib, k, lib.setlists[l].band.value)
      && forall song :: song in lib.setlists[l].songs ==> song in lib.setlists[k].songs
  }

  /** What a request holds fits its setlist. */
  predicate RequestFits(lib: Library, seen: set<(Id, Id)>, q: Request) {
    match q.phase
    case Begun => true
    case Failed => true
    case Reading(band) => Opens(lib, q.job, band)
    case Looking(band) => Opens(lib, q.job, band)
    case Copying(band) => Opens(lib, q.job, band)
    case Checking(song) => SongFits(lib, q.job.setlist, song) && Resolves(lib, q.job, song)
    case Linking(song) => SongFits(lib, q.job.setlist, song) && Resolves(lib, q.job, song)
    case Done(song) => SongFits(lib, q.job.setlist, song) && Resolves(lib, q.job, song) && (q.job.setlist, song) in seen
  }

  /** `song` is the one asked for, or the band's copy of it. */
  predicate Resolves(lib: Library, job: Job, song: Id) {
    && job.setlist in lib.setlists
    && (song == job.source
        || (lib.setlists[job.setlist].band.Some? && IsCopy(lib, song, lib.setlists[job.setlist].band.value, job.source)))
    && (job.Accept? ==> lib.setlists[job.setlist].band == Some(job.band))
  }

  predicate Opens(lib: Library, job: Job, band: Id) {
    && job.setlist in lib.setlists && lib.setlists[job.setlist].band == Some(band)
    && (job.Accept? ==> band == job.band)
  }

  predicate SongFits(lib: Library, l: Id, song: Id) {
    l in lib.setlists && song in lib.songs && lib.songs[song].band == lib.setlists[l].band
  }

  predicate RequestsFit(s: State) {
    forall r :: r in s.requests ==> RequestFits(s.lib, s.seen, s.requests[r])
  }

  predicate LinksSeen(s: State) {
    forall l, song :: l in s.lib.setlists && song in s.lib.setlists[l].songs ==> (l, song) in s.seen
  }

  ghost predicate Sound(lib: Library) {
    InScope(lib) && NoSongTwice(lib) && OneCopy(lib) && OneRepertoire(lib) && AllInRepertoire(lib)
  }

  ghost predicate Inv(s: State) {
    Sound(s.lib) && RequestsFit(s) && LinksSeen(s)
  }

  // ----- statements keep the library sound ---------------------------------

  /** Songs and setlists stay, and stay whose they are. */
  predicate Keeps(lib: Library, lib': Library) {
    && (forall id :: id in lib.songs ==>
          id in lib'.songs && lib'.songs[id].band == lib.songs[id].band && lib'.songs[id].forkedFrom == lib.songs[id].forkedFrom)
    && (forall l :: l in lib.setlists ==>
          && l in lib'.setlists
          && lib'.setlists[l].band == lib.setlists[l].band
          && lib'.setlists[l].isRepertoire == lib.setlists[l].isRepertoire)
  }

  lemma AppendKeeps(lib: Library, l: Id, song: Id)
    requires InScope(lib) && NoSongTwice(lib) && SongFits(lib, l, song)
    ensures var lib' := Append(lib, l, song); InScope(lib') && NoSongTwice(lib') && Keeps(lib, lib') && lib'.songs == lib.songs
    ensures Append(lib, l, song).setlists.Keys == lib.setlists.Keys
    ensures forall k, x :: HasSong(Append(lib, l, song), k, x) <==> HasSong(lib, k, x) || (k == l && x == song)
  {}

  lemma AddSongLinks(lib: Library, l: Id, song: Id, repertoire: Id)
    requires InScope(lib) && NoSongTwice(lib) && SongFits(lib, l, song) && RepertoireFor(lib, l, repertoire)
    ensures var lib' := AddSong(lib, l, song, repertoire);
      InScope(lib') && NoSongTwice(lib') && Keeps(lib, lib') && lib'.songs == lib.songs && lib'.setlists.Keys == lib.setlists.Keys
    ensures forall k, x :: HasSong(AddSong(lib, l, song, repertoire), k, x) <==>
      HasSong(lib, k, x) || (x == song && (k == l || (GoesToRepertoire(lib, l) && k == repertoire)))
  {
    AppendKeeps(lib, l, song);
    if GoesToRepertoire(lib, l) {
      AppendKeeps(Append(lib, l, song), repertoire, song);
    }
  }

  lemma Covered(lib: Library, l: Id) returns (k: Id)
    requires AllInRepertoire(lib) && l in lib.setlists && lib.setlists[l].band.Some?
    ensures IsRepertoire(lib, k, lib.setlists[l].band.value)
    ensures forall x :: HasSong(lib, l, x) ==> HasSong(lib, k, x)
  {
    assert CoveredBy(lib, l);
    k :| IsRepertoire(lib, k, lib.setlists[l].band.value)
      && forall song :: song in lib.setlists[l].songs ==> song in lib.setlists[k].songs;
  }

  lemma Covers(lib: Library, l: Id, k: Id)
    requires l in lib.setlists && lib.setlists[l].band.Some? && IsRepertoire(lib, k, lib.setlists[l].band.value)
    requires forall x :: HasSong(lib, l, x) ==> HasSong(lib, k, x)
    ensures CoveredBy(lib, l)
  {
    assert forall song :: song in lib.setlists[l].songs ==> HasSong(lib, l, song);
  }

  lemma SameRepertoires(lib: Library, lib': Library)
    requires OneRepertoire(lib) && Keeps(lib, lib') && lib'.setlists.Keys == lib.setlists.Keys
    ensures OneRepertoire(lib')
  {
    forall a, b, band | IsRepertoire(lib', a, band) && IsRepertoire(lib', b, band) ensures a == b {
      assert IsRepertoire(lib, a, band) && IsRepertoire(lib, b, band);
    }
  }

  lemma SameCopies(lib: Library, lib': Library)
    requires OneCopy(lib) && lib'.songs == lib.songs
    ensures OneCopy(lib')
  {
    forall a, b, band, source | IsLiveCopy(lib', a, band, source) && IsLiveCopy(lib', b, band, source) ensures a == b {
      assert IsLiveCopy(lib, a, band, source) && IsLiveCopy(lib, b, band, source);
    }
  }

  lemma AddSongSound(lib: Library, l: Id, song: Id, repertoire: Id)
    requires Sound(lib) && SongFits(lib, l, song) && RepertoireFor(lib, l, repertoire)
    ensures Sound(AddSong(lib, l, song, repertoire)) && Keeps(lib, AddSong(lib, l, song, repertoire))
  {
    var lib' := AddSong(lib, l, song, repertoire);
    AddSongLinks(lib, l, song, repertoire);
    SameRepertoires(lib, lib');
    SameCopies(lib, lib');
    forall k | k in lib'.setlists && lib'.setlists[k].band.Some? ensures CoveredBy(lib', k) {
      var r := Covered(lib, k);
      if k == l && GoesToRepertoire(lib, l) {
        Covers(lib', k, repertoire);
      } else {
        Covers(lib', k, r);
      }
    }
  }

  lemma {:induction false} WithoutIsDistinct(songs: seq<Id>, song: Id)
    requires Distinct(songs)
    ensures Distinct(Without(songs, song))
  {
    if songs != [] {
      WithoutIsDistinct(songs[1..], song);
      var rest := Without(songs[1..], song);
      forall i | 0 <= i < |rest| ensures rest[i] != songs[0] {
        assert rest[i] in rest;
      }
    }
  }

  /** `lib'` has fewer links, repertoires untouched. */
  ghost predicate Shrinks(lib: Library, lib': Library) {
    && lib'.setlists.Keys == lib.setlists.Keys
    && Keeps(lib, lib')
    && forall l :: l in lib.setlists ==>
         && (forall song :: song in lib'.setlists[l].songs ==> song in lib.setlists[l].songs)
         && (lib.setlists[l].isRepertoire && lib.setlists[l].band.Some? ==> lib'.setlists[l].songs == lib.setlists[l].songs)
  }

  lemma ShrunkSound(lib: Library, lib': Library)
    requires Sound(lib) && Shrinks(lib, lib') && NoSongTwice(lib') && OneCopy(lib')
    ensures Sound(lib')
  {
    SameRepertoires(lib, lib');
    forall l | l in lib'.setlists && lib'.setlists[l].band.Some? ensures CoveredBy(lib', l) {
      var k := Covered(lib, l);
      forall x | HasSong(lib', l, x) ensures HasSong(lib', k, x) {
        assert HasSong(lib, l, x);
      }
      Covers(lib', l, k);
    }
  }

  lemma RemoveSound(lib: Library, l: Id, song: Id)
    requires Sound(lib) && l in lib.setlists && !lib.setlists[l].isRepertoire
    ensures Sound(RemoveSong(lib, l, song)) && Shrinks(lib, RemoveSong(lib, l, song))
  {
    var lib' := RemoveSong(lib, l, song);
    WithoutIsDistinct(lib.setlists[l].songs, song);
    SameCopies(lib, lib');
    ShrunkSound(lib, lib');
  }

  lemma TrashSound(lib: Library, song: Id)
    requires Sound(lib) && song in lib.songs
    ensures Sound(TrashSong(lib, song)) && Shrinks(lib, TrashSong(lib, song))
  {
    var lib' := TrashSong(lib, song);
    forall l | l in lib'.setlists ensures Distinct(lib'.setlists[l].songs) {
      WithoutIsDistinct(lib.setlists[l].songs, song);
    }
    forall a, b, band, source | IsLiveCopy(lib', a, band, source) && IsLiveCopy(lib', b, band, source) ensures a == b {
      assert IsLiveCopy(lib, a, band, source) && IsLiveCopy(lib, b, band, source);
    }
    ShrunkSound(lib, lib');
  }

  /** Only songs change. */
  lemma SongsSound(lib: Library, lib': Library)
    requires Sound(lib) && lib'.setlists == lib.setlists && Keeps(lib, lib') && OneCopy(lib')
    ensures Sound(lib')
  {
    ShrunkSound(lib, lib');
  }

  /** What is in the trash may come back, unless the band has another live copy of the
      same song by then. */
  lemma RestoresExactly(s: State, song: Id)
    ensures Enabled(s, Restore(song)) <==>
      && song in s.lib.songs && !s.lib.songs[song].live
      && forall id :: id in s.lib.songs && s.lib.songs[id].live && s.lib.songs[id].band.Some? && s.lib.songs[id].forkedFrom.Some?
           ==> s.lib.songs[id].band != s.lib.songs[song].band || s.lib.songs[id].forkedFrom != s.lib.songs[song].forkedFrom
  {
    if song in s.lib.songs && s.lib.songs[song].band.Some? && s.lib.songs[song].forkedFrom.Some? {
      var (band, source) := (s.lib.songs[song].band.value, s.lib.songs[song].forkedFrom.value);
      assert NoLiveCopy(s.lib, band, source) <==>
        forall id :: id in s.lib.songs && s.lib.songs[id].live ==>
          s.lib.songs[id].band != Some(band) || s.lib.songs[id].forkedFrom != Some(source);
    }
  }

  lemma RestoreSound(lib: Library, song: Id)
    requires Sound(lib) && CanRestore(lib, song)
    ensures Sound(SetLive(lib, song, true)) && Keeps(lib, SetLive(lib, song, true))
  {
    var lib' := SetLive(lib, song, true);
    forall a, b, band, source | IsLiveCopy(lib', a, band, source) && IsLiveCopy(lib', b, band, source) ensures a == b {
      assert a != song ==> IsLiveCopy(lib, a, band, source);
      assert b != song ==> IsLiveCopy(lib, b, band, source);
    }
    SongsSound(lib, lib');
  }

  lemma CopySound(lib: Library, band: Id, source: Id, actor: Id, found: Option<Id>, newId: Id)
    requires Sound(lib) && IsFork(lib, band, source, found) && newId !in lib.songs
    ensures var (lib', song) := CopyFor(lib, band, source, actor, found, newId);
      Sound(lib') && Keeps(lib, lib') && lib'.setlists == lib.setlists && IsLiveCopy(lib', song, band, source)
  {
    var (lib', song) := CopyFor(lib, band, source, actor, found, newId);
    forall a, b, band', source' | IsLiveCopy(lib', a, band', source') && IsLiveCopy(lib', b, band', source') ensures a == b {
      assert a != newId ==> IsLiveCopy(lib, a, band', source');
      assert b != newId ==> IsLiveCopy(lib, b, band', source');
    }
    SongsSound(lib, lib');
  }

  lemma NewSongSound(lib: Library, song: Id, owner: Id)
    requires Sound(lib) && song !in lib.songs
    ensures var lib' := lib.(songs := lib.songs[song := Song(None, None, owner, true)]); Sound(lib') && Keeps(lib, lib')
  {
    var lib' := lib.(songs := lib.songs[song := Song(None, None, owner, true)]);
    forall a, b, band, source | IsLiveCopy(lib', a, band, source) && IsLiveCopy(lib', b, band, source) ensures a == b {
      assert IsLiveCopy(lib, a, band, source) && IsLiveCopy(lib, b, band, source);
    }
    SongsSound(lib, lib');
  }

  lemma NewSetlistSound(lib: Library, l: Id, setlist: Setlist)
    requires Sound(lib) && l !in lib.setlists && setlist.songs == []
    requires setlist.band.Some? ==> if setlist.isRepertoire then NoRepertoire(lib, setlist.band.value)
                                    else HasRepertoire(lib, setlist.band.value)
    ensures Sound(Added(lib, l, setlist)) && Keeps(lib, Added(lib, l, setlist))
  {
    var lib' := Added(lib, l, setlist);
    SameCopies(lib, lib');
    forall a, b, band | IsRepertoire(lib', a, band) && IsRepertoire(lib', b, band) ensures a == b {
      assert a != l ==> IsRepertoire(lib, a, band);
      assert b != l ==> IsRepertoire(lib, b, band);
    }
    forall k | k in lib'.setlists && lib'.setlists[k].band.Some? ensures CoveredBy(lib', k) {
      if k == l {
        if setlist.isRepertoire {
          Covers(lib', l, l);
        } else {
          var r :| IsRepertoire(lib, r, setlist.band.value);
          assert IsRepertoire(lib', r, setlist.band.value);
          Covers(lib', l, r);
        }
      } else {
        var r := Covered(lib, k);
        assert forall x :: HasSong(lib', k, x) ==> HasSong(lib, k, x);
        Covers(lib', k, r);
      }
    }
  }

  lemma SetlistLiveSound(lib: Library, l: Id, live: bool)
    requires Sound(lib) && l in lib.setlists
    ensures Sound(SetlistLive(lib, l, live)) && Shrinks(lib, SetlistLive(lib, l, live))
  {
    SameCopies(lib, SetlistLive(lib, l, live));
    ShrunkSound(lib, SetlistLive(lib, l, live));
  }

  // ----- every step keeps the invariant ------------------------------------

  lemma FitsStays(lib: Library, lib': Library, seen: set<(Id, Id)>, seen': set<(Id, Id)>, q: Request)
    requires RequestFits(lib, seen, q) && Keeps(lib, lib') && seen <= seen'
    ensures RequestFits(lib', seen', q)
  {}

  lemma LibChanges(s: State, lib: Library)
    requires Inv(s) && Sound(lib) && Keeps(s.lib, lib)
    requires forall l, song :: HasSong(lib, l, song) ==> HasSong(s.lib, l, song)
    ensures Inv(WithLib(s, lib))
  {
    forall r | r in s.requests ensures RequestFits(lib, s.seen, s.requests[r]) {
      FitsStays(s.lib, lib, s.seen, s.seen, s.requests[r]);
    }
    forall l, song | l in lib.setlists && song in lib.setlists[l].songs ensures (l, song) in s.seen {
      assert HasSong(lib, l, song);
    }
  }

  lemma PhaseChanges(s: State, r: Id, phase: Phase)
    requires Inv(s) && r in s.requests && RequestFits(s.lib, s.seen, Request(s.requests[r].job, phase))
    ensures Inv(ToPhase(s, r, phase))
  {}

  lemma LinkKeepsRequests(s: State, r: Id, repertoire: Id)
    requires Inv(s) && Enabled(s, Link(r, repertoire)) && LiveSetlist(s.lib, s.requests[r].job.setlist)
    requires Keeps(s.lib, Apply(s, Link(r, repertoire)).lib)
    ensures RequestsFit(Apply(s, Link(r, repertoire)))
  {
    var s' := Apply(s, Link(r, repertoire));
    forall r' | r' in s.requests ensures RequestFits(s'.lib, s'.seen, s'.requests[r']) {
      FitsStays(s.lib, s'.lib, s.seen, s'.seen, s.requests[r']);
    }
  }

  lemma LinkKeeps(s: State, r: Id, repertoire: Id)
    requires Inv(s) && Enabled(s, Link(r, repertoire))
    ensures Inv(Apply(s, Link(r, repertoire)))
  {
    var (l, song) := (s.requests[r].job.setlist, s.requests[r].phase.song);
    if LiveSetlist(s.lib, l) {
      var s' := Apply(s, Link(r, repertoire));
      AddSongSound(s.lib, l, song, repertoire);
      AddSongLinks(s.lib, l, song, repertoire);
      LinkKeepsRequests(s, r, repertoire);
      forall k, x | k in s'.lib.setlists && x in s'.lib.setlists[k].songs ensures (k, x) in s'.seen {
        assert HasSong(s'.lib, k, x);
      }
    }
  }

  lemma RequestStepKeeps(s: State, step: Step)
    requires Inv(s) && Enabled(s, step)
    requires step.Open? || step.Read? || step.Look? || step.Check? || step.Fail? || step.Copy?
    ensures Inv(Apply(s, step))
  {
    var q := s.requests[step.r];
    match step
    case Open(r) => PhaseChanges(s, r, Opened(s.lib, q.job));
    case Read(r) => PhaseChanges(s, r, AfterReading(s.lib, q.phase.band, q.job.source));
    case Look(r, found) => PhaseChanges(s, r, if found.Some? then Checking(found.value) else Copying(q.phase.band));
    case Check(r) => PhaseChanges(s, r, AfterChecking(s.lib, q.job, q.phase.song));
    case Fail(r) => PhaseChanges(s, r, Failed);
    case Copy(r, found, newId) =>
      var (lib, song) := CopyFor(s.lib, q.phase.band, q.job.source, q.job.actor, found, newId);
      CopySound(s.lib, q.phase.band, q.job.source, q.job.actor, found, newId);
      LibChanges(s, lib);
      PhaseChanges(WithLib(s, lib), r, Checking(song));
  }

  lemma LibStepKeeps(s: State, step: Step)
    requires Inv(s) && Enabled(s, step)
    requires step.NewSong? || step.NewBand? || step.NewSetlist? || step.TrashSetlist? || step.RestoreSetlist?
          || step.Remove? || step.Trash? || step.Restore?
    ensures Inv(Apply(s, step))
  {
    var lib := Apply(s, step).lib;
    match step {
      case NewSong(song, owner) => NewSongSound(s.lib, song, owner);
      case NewBand(band, repertoire, owner) => NewSetlistSound(s.lib, repertoire, Setlist(Some(band), true, owner, true, []));
      case NewSetlist(l, band, owner) => NewSetlistSound(s.lib, l, Setlist(band, false, owner, true, []));
      case TrashSetlist(l) => SetlistLiveSound(s.lib, l, false);
      case RestoreSetlist(l) => SetlistLiveSound(s.lib, l, true);
      case Remove(l, song) => RemoveSound(s.lib, l, song);
      case Trash(song) => TrashSound(s.lib, song);
      case Restore(song) => RestoreSound(s.lib, song);
    }
    LibChanges(s, lib);
  }

  lemma StepKeepsInv(s: State, step: Step)
    requires Inv(s) && Enabled(s, step)
    ensures Inv(Apply(s, step))
  {
    match step
    case Begin(r, job) =>
    case Link(r, repertoire) => LinkKeeps(s, r, repertoire);
    case Open(r) => RequestStepKeeps(s, step);
    case Read(r) => RequestStepKeeps(s, step);
    case Look(r, found) => RequestStepKeeps(s, step);
    case Copy(r, found, newId) => RequestStepKeeps(s, step);
    case Check(r) => RequestStepKeeps(s, step);
    case Fail(r) => RequestStepKeeps(s, step);
    case _ => LibStepKeeps(s, step);
  }

  lemma {:induction false} RunKeepsInv(run: seq<State>, steps: seq<Step>, i: nat)
    requires IsRun(run, steps) && i < |run|
    ensures Inv(run[i])
  {
    if i > 0 {
      RunKeepsInv(run, steps, i - 1);
      StepKeepsInv(run[i - 1], steps[i - 1]);
    }
  }

  // ----- main results ------------------------------------------------------

  /** Whatever adds, removals, acceptances, trashings and deaths are interleaved:
      a band's setlist holds only that band's songs and a personal one only
      personal songs, no setlist holds a song twice, a band has one live copy of
      a song at most, and what it plays is in its repertoire. */
  lemma SetlistsStayInScope(run: seq<State>, steps: seq<Step>, i: nat)
    requires IsRun(run, steps) && i < |run|
    ensures InScope(run[i].lib) && NoSongTwice(run[i].lib) && OneCopy(run[i].lib) && AllInRepertoire(run[i].lib)
  {
    RunKeepsInv(run, steps, i);
  }

  lemma StepKeepsLibrary(s: State, step: Step)
    requires Inv(s) && Enabled(s, step)
    ensures Keeps(s.lib, Apply(s, step).lib)
  {
    match step
    case Link(r, repertoire) =>
      if LiveSetlist(s.lib, s.requests[r].job.setlist) {
        AddSongLinks(s.lib, s.requests[r].job.setlist, s.requests[r].phase.song, repertoire);
      }
    case Trash(song) => TrashSound(s.lib, song);
    case _ =>
  }

  lemma CopyStaysLive(s: State, step: Step, a: Id, band: Id, source: Id)
    requires Inv(s) && Enabled(s, step) && step != Trash(a) && IsLiveCopy(s.lib, a, band, source)
    ensures IsLiveCopy(Apply(s, step).lib, a, band, source)
  {
    StepKeepsLibrary(s, step);
    if step.Link? && LiveSetlist(s.lib, s.requests[step.r].job.setlist) {
      AddSongLinks(s.lib, s.requests[step.r].job.setlist, s.requests[step.r].phase.song, step.repertoire);
    }
  }

  /** Once a band has a copy of a song, every request that asks for it gets that
      one, until the band trashes it. */
  lemma {:induction false} SameCopyUntilTrashed(run: seq<State>, steps: seq<Step>, i: nat, j: nat,
                                                band: Id, source: Id, copy: Id, found: Option<Id>)
    requires IsRun(run, steps) && i <= j < |run|
    requires IsLiveCopy(run[i].lib, copy, band, source) && Trash(copy) !in steps[i..j]
    requires IsFork(run[j].lib, band, source, found)
    ensures found == Some(copy)
    decreases j - i
  {
    RunKeepsInv(run, steps, i);
    if i < j {
      assert steps[i] == steps[i..j][0];
      assert steps[i + 1..j] == steps[i..j][1..];
      CopyStaysLive(run[i], steps[i], copy, band, source);
      SameCopyUntilTrashed(run, steps, i + 1, j, band, source, copy, found);
    }
  }

  /** A request that succeeded did put the song asked for, or the band's copy of
      it, in its setlist, or found it there. */
  lemma DoneMeansLinked(run: seq<State>, steps: seq<Step>, i: nat, r: Id)
    requires IsRun(run, steps) && i < |run| && r in run[i].requests && run[i].requests[r].phase.Done?
    ensures var q := run[i].requests[r];
      Resolves(run[i].lib, q.job, q.phase.song) && (q.job.setlist, q.phase.song) in run[i].seen
  {
    RunKeepsInv(run, steps, i);
  }

  /** A link counts as seen from the moment it is there. */
  lemma NewlySeen(s: State, step: Step, l: Id, song: Id)
    requires Inv(s) && Enabled(s, step) && (l, song) in Apply(s, step).seen && (l, song) !in s.seen
    ensures HasSong(Apply(s, step).lib, l, song)
  {
    AddSongLinks(s.lib, s.requests[step.r].job.setlist, s.requests[step.r].phase.song, step.repertoire);
  }

  /** What counts as seen was there at some moment. */
  lemma {:induction false} SeenWasThere(run: seq<State>, steps: seq<Step>, i: nat, l: Id, song: Id) returns (j: nat)
    requires IsRun(run, steps) && i < |run| && (l, song) in run[i].seen
    ensures j <= i && HasSong(run[j].lib, l, song)
  {
    if (l, song) in run[i - 1].seen {
      j := SeenWasThere(run, steps, i - 1, l, song);
    } else {
      j := i;
      RunKeepsInv(run, steps, i - 1);
      NewlySeen(run[i - 1], steps[i - 1], l, song);
    }
  }
}

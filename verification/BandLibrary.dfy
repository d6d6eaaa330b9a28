/**
 Songs, setlists and the statements that change them. Each function is one
 transaction of a repository.
 */
module BandLibrary {
  import opened Options

  type Id = nat

  /** A personal song, or a band's: then it may be the copy of a personal one. */
  datatype Song = Song(band: Option<Id>, forkedFrom: Option<Id>, owner: Id, live: bool)

  datatype Setlist = Setlist(band: Option<Id>, isRepertoire: bool, owner: Id, live: bool, songs: seq<Id>)

  datatype Library = Library(songs: map<Id, Song>, setlists: map<Id, Setlist>)

  predicate LiveSong(lib: Library, id: Id) {
    id in lib.songs && lib.songs[id].live
  }

  predicate LiveSetlist(lib: Library, id: Id) {
    id in lib.setlists && lib.setlists[id].live
  }

  predicate IsCopy(lib: Library, id: Id, band: Id, source: Id) {
    id in lib.songs && lib.songs[id].band == Some(band) && lib.songs[id].forkedFrom == Some(source)
  }

  predicate IsLiveCopy(lib: Library, id: Id, band: Id, source: Id) {
    IsCopy(lib, id, band, source) && lib.songs[id].live
  }

  predicate NoLiveCopy(lib: Library, band: Id, source: Id) {
    forall id :: id in lib.songs ==> !IsLiveCopy(lib, id, band, source)
  }

  /** What a query for the band's copy may return. */
  predicate IsFork(lib: Library, band: Id, source: Id, found: Option<Id>) {
    if found.Some? then IsLiveCopy(lib, found.value, band, source) else NoLiveCopy(lib, band, source)
  }

  predicate IsRepertoire(lib: Library, id: Id, band: Id) {
    id in lib.setlists && lib.setlists[id].isRepertoire && lib.setlists[id].band == Some(band)
  }

  predicate HasSong(lib: Library, setlist: Id, song: Id) {
    setlist in lib.setlists && song in lib.setlists[setlist].songs
  }

  // ----- statements --------------------------------------------------------

  function SetSongs(lib: Library, setlist: Id, songs: seq<Id>): Library
    requires setlist in lib.setlists
  {
    lib.(setlists := lib.setlists[setlist := lib.setlists[setlist].(songs := songs)])
  }

  /** At the end, unless it is there already. */
  function Append(lib: Library, setlist: Id, song: Id): Library
    requires setlist in lib.setlists
  {
    if HasSong(lib, setlist, song) then lib else SetSongs(lib, setlist, lib.setlists[setlist].songs + [song])
  }

  /** A band's setlist other than its repertoire takes the song along into the
      repertoire. */
  predicate GoesToRepertoire(lib: Library, setlist: Id)
    requires setlist in lib.setlists
  {
    lib.setlists[setlist].band.Some? && !lib.setlists[setlist].isRepertoire
  }

  function AddSong(lib: Library, setlist: Id, song: Id, repertoire: Id): Library
    requires setlist in lib.setlists && repertoire in lib.setlists
  {
    var linked := Append(lib, setlist, song);
    if GoesToRepertoire(lib, setlist) then Append(linked, repertoire, song) else linked
  }

  function Without(songs: seq<Id>, song: Id): (r: seq<Id>)
    ensures forall s :: s in r <==> s in songs && s != song
  {
    if songs == [] then []
    else if songs[0] == song then Without(songs[1..], song)
    else [songs[0]] + Without(songs[1..], song)
  }

  function RemoveSong(lib: Library, setlist: Id, song: Id): Library
    requires setlist in lib.setlists
  {
    SetSongs(lib, setlist, Without(lib.setlists[setlist].songs, song))
  }

  function SetLive(lib: Library, song: Id, live: bool): Library
    requires song in lib.songs
  {
    lib.(songs := lib.songs[song := lib.songs[song].(live := live)])
  }

  /** Personal setlists of others let go of a personal song; they hold a snapshot
      of it instead. */
  function Detached(setlists: map<Id, Setlist>, song: Id, owner: Id): map<Id, Setlist> {
    map id | id in setlists ::
      if setlists[id].band == None && setlists[id].owner != owner
      then setlists[id].(songs := Without(setlists[id].songs, song))
      else setlists[id]
  }

  function TrashSong(lib: Library, song: Id): Library
    requires song in lib.songs
  {
    var trashed := SetLive(lib, song, false);
    if lib.songs[song].band == None
    then trashed.(setlists := Detached(lib.setlists, song, lib.songs[song].owner))
    else trashed
  }

  /** The live copy there is, or `newId`. */
  function CopyFor(lib: Library, band: Id, source: Id, actor: Id, found: Option<Id>, newId: Id): (Library, Id) {
    if found.Some? then (lib, found.value)
    else (lib.(songs := lib.songs[newId := Song(Some(band), Some(source), actor, true)]), newId)
  }

  // ----- what the statements do --------------------------------------------

  lemma {:induction false} WithoutNothing(songs: seq<Id>, song: Id)
    requires song !in songs
    ensures Without(songs, song) == songs
  {
    if songs != [] {
      WithoutNothing(songs[1..], song);
    }
  }

  /** The others keep their order. */
  lemma {:induction false} WithoutOne(songs: seq<Id>, song: Id, i: nat)
    requires i < |songs| && songs[i] == song && song !in songs[..i] && song !in songs[i + 1..]
    ensures Without(songs, song) == songs[..i] + songs[i + 1..]
  {
    if i == 0 {
      WithoutNothing(songs[1..], song);
    } else {
      assert songs[0] in songs[..i] && songs[1..][..i - 1] == songs[..i][1..] && songs[1..][i..] == songs[i + 1..];
      WithoutOne(songs[1..], song, i - 1);
      assert [songs[0]] + (songs[1..][..i - 1] + songs[i + 1..]) == songs[..i] + songs[i + 1..];
    }
  }

  /** A trashed song is not live. A personal one leaves the personal setlists of
      others, and no other link goes. */
  lemma TrashLetsGo(lib: Library, song: Id)
    requires song in lib.songs
    ensures var lib' := TrashSong(lib, song);
      && lib'.songs == lib.songs[song := lib.songs[song].(live := false)]
      && lib'.setlists.Keys == lib.setlists.Keys
      && (forall l: Id, x: Id :: HasSong(lib', l, x) <==>
            HasSong(lib, l, x)
            && !(x == song && lib.songs[song].band == None
                 && lib.setlists[l].band == None && lib.setlists[l].owner != lib.songs[song].owner))
      && forall l :: l in lib.setlists && (lib.songs[song].band.Some? || lib.setlists[l].band.Some?
                                           || lib.setlists[l].owner == lib.songs[song].owner) ==>
           lib'.setlists[l] == lib.setlists[l]
  {}
}

/**
 Adding and removing songs, one request at a time, on the library in place.
 Permissions and quotas are decided before these run.
 */
module Setlists {
  import opened Options
  import opened Collections
  import opened BandLibrary
  import opened SetlistScope

  datatype Outcome = Added(song: Id) | AlreadyThere | NotFound

  /** An order of songs may not name one twice. */
  method EnsureDistinct(ids: seq<Id>) returns (ok: bool)
    ensures ok <==> Distinct(ids)
  {
    var seen: set<Id> := {};
    for i := 0 to |ids|
      invariant Distinct(ids[..i])
      invariant forall id :: id in seen <==> id in ids[..i]
    {
      if ids[i] in seen {
        assert exists k :: 0 <= k < i && ids[k] == ids[i];
        return false;
      }
      seen := seen + {ids[i]};
      assert ids[..i + 1] == ids[..i] + [ids[i]];
    }
    assert ids[..|ids|] == ids;
    return true;
  }

  /** No song changes or goes. */
  predicate SongsStay(lib: Library, lib': Library) {
    forall id :: id in lib.songs ==> id in lib'.songs && lib'.songs[id] == lib.songs[id]
  }

  /** Whether the setlist may take the song, or the band's copy of it. */
  predicate Takes(lib: Library, setlist: Id, source: Id) {
    && LiveSong(lib, source) && LiveSetlist(lib, setlist)
    && (lib.songs[source].band == None || lib.songs[source].band == lib.setlists[setlist].band)
  }

  /** The song that stands for `source` in the band: itself, or the band's live
      copy of it if it is personal. */
  predicate StandsFor(lib: Library, song: Id, band: Option<Id>, source: Id) {
    && song in lib.songs && source in lib.songs
    && lib.songs[song].band == band
    && (song == source || (band.Some? && lib.songs[source].band.None? && IsLiveCopy(lib, song, band.value, source)))
  }

  function Grown(songs: seq<Id>, song: Id): seq<Id> {
    if song in songs then songs else songs + [song]
  }

  /** All that adding `song` changes: the end of the setlist and, for a band's
      setlist other than its repertoire, the end of the repertoire. */
  ghost predicate LinkedWith(lib: Library, lib': Library, setlist: Id, repertoire: Id, song: Id)
    requires setlist in lib.setlists
  {
    && lib'.setlists.Keys == lib.setlists.Keys
    && forall l :: l in lib.setlists ==>
         lib'.setlists[l] ==
           if l == setlist || (GoesToRepertoire(lib, setlist) && l == repertoire)
           then lib.setlists[l].(songs := Grown(lib.setlists[l].songs, song))
           else lib.setlists[l]
  }

  ghost predicate Links(lib: Library, lib': Library, setlist: Id, song: Id)
    requires setlist in lib.setlists
  {
    exists r :: RepertoireFor(lib, setlist, r) && LinkedWith(lib, lib', setlist, r, song)
  }

  lemma AddSongIsLinked(lib: Library, setlist: Id, song: Id, repertoire: Id)
    requires RepertoireFor(lib, setlist, repertoire)
    ensures Links(lib, AddSong(lib, setlist, song, repertoire), setlist, song)
    ensures AddSong(lib, setlist, song, repertoire).songs == lib.songs
  {
    assert LinkedWith(lib, AddSong(lib, setlist, song, repertoire), setlist, repertoire, song);
  }

  lemma LinksFrom(before: Library, lib: Library, lib': Library, setlist: Id, song: Id)
    requires setlist in lib.setlists && before.setlists == lib.setlists && Links(lib, lib', setlist, song)
    ensures Links(before, lib', setlist, song)
  {
    var r :| RepertoireFor(lib, setlist, r) && LinkedWith(lib, lib', setlist, r, song);
    assert RepertoireFor(before, setlist, r) && LinkedWith(before, lib', setlist, r, song);
  }

  lemma OthersStay(songs: seq<Id>, song: Id)
    requires Distinct(songs)
    ensures forall i :: 0 <= i < |songs| && songs[i] == song ==> Without(songs, song) == songs[..i] + songs[i + 1..]
  {
    forall i | 0 <= i < |songs| && songs[i] == song ensures Without(songs, song) == songs[..i] + songs[i + 1..] {
      WithoutOne(songs, song, i);
    }
  }

  class Store {
    var lib: Library

    constructor ()
      ensures Sound(lib) && lib == INIT.lib
    {
      lib := INIT.lib;
    }

    /** The band's own song, the copy it has, or a new copy. */
    method BandSongFor(band: Id, source: Id, actor: Id, newId: Id) returns (song: Option<Id>)
      requires Sound(lib) && LiveSong(lib, source) && newId !in lib.songs
      modifies this
      ensures Sound(lib) && Keeps(old(lib), lib) && lib.setlists == old(lib.setlists) && SongsStay(old(lib), lib)
      ensures song.None? <==> old(lib).songs[source].band.Some? && old(lib).songs[source].band != Some(band)
      ensures song.Some? ==> StandsFor(lib, song.value, Some(band), source)
      ensures lib == if song == Some(newId)
                     then old(lib).(songs := old(lib).songs[newId := Song(Some(band), Some(source), actor, true)])
                     else old(lib)
      ensures song == Some(newId) <==> old(lib).songs[source].band.None? && old(NoLiveCopy(lib, band, source))
    {
      if lib.songs[source].band == Some(band) {
        return Some(source);
      }
      if lib.songs[source].band.Some? {
        return None;
      }
      if id :| id in lib.songs && IsLiveCopy(lib, id, band, source) {
        return Some(id);
      }
      CopySound(lib, band, source, actor, None, newId);
      var (copied, id) := CopyFor(lib, band, source, actor, None, newId);
      lib := copied;
      return Some(id);
    }

    /** The song goes to the end of the setlist, and of the band's repertoire. */
    method LinkSong(setlist: Id, song: Id)
      requires Sound(lib) && SongFits(lib, setlist, song)
      modifies this
      ensures Sound(lib) && Keeps(old(lib), lib) && lib.songs == old(lib.songs)
      ensures Links(old(lib), lib, setlist, song)
    {
      var repertoire := setlist;
      if GoesToRepertoire(lib, setlist) {
        ghost var k := Covered(lib, setlist);
        repertoire :| repertoire in lib.setlists && IsRepertoire(lib, repertoire, lib.setlists[setlist].band.value);
      }
      AddSongSound(lib, setlist, song, repertoire);
      AddSongIsLinked(lib, setlist, song, repertoire);
      lib := AddSong(lib, setlist, song, repertoire);
    }

    /** A band's setlist takes the band's song, a personal one the song itself; a
        setlist that has it already refuses, and nothing else changes then. */
    method AddSongToSetlist(setlist: Id, source: Id, actor: Id, newId: Id) returns (outcome: Outcome)
      requires Sound(lib) && newId !in lib.songs
      modifies this
      ensures Sound(lib) && Keeps(old(lib), lib)
      ensures outcome.NotFound? <==> !old(Takes(lib, setlist, source))
      ensures outcome.NotFound? <==> !old(
        && source in lib.songs && lib.songs[source].live && setlist in lib.setlists && lib.setlists[setlist].live
        && (lib.songs[source].band == None || lib.songs[source].band == lib.setlists[setlist].band))
      ensures !outcome.Added? ==> lib == old(lib)
      ensures outcome.AlreadyThere? ==>
        exists song :: StandsFor(lib, song, lib.setlists[setlist].band, source) && HasSong(lib, setlist, song)
      ensures outcome.Added? ==> StandsFor(lib, outcome.song, lib.setlists[setlist].band, source)
      ensures outcome.Added? ==> !HasSong(old(lib), setlist, outcome.song)
      ensures outcome.Added? ==> Links(old(lib), lib, setlist, outcome.song)
      ensures outcome.Added? ==> lib.setlists[setlist].songs == old(lib.setlists[setlist].songs) + [outcome.song]
      ensures outcome.Added? ==> forall l :: l in lib.setlists && l != setlist ==>
        lib.setlists[l].songs == old(lib.setlists[l].songs)
        || (lib.setlists[l].isRepertoire && lib.setlists[l].band == lib.setlists[setlist].band
            && lib.setlists[l].songs == old(lib.setlists[l].songs) + [outcome.song])
      ensures outcome.Added? && lib.setlists[setlist].band.Some? ==>
        exists r :: IsRepertoire(lib, r, lib.setlists[setlist].band.value) && HasSong(lib, r, outcome.song)
      ensures outcome.Added? ==>
        lib.songs == old(lib.songs) || (outcome.song == newId && lib.songs == old(lib.songs)[newId := lib.songs[newId]])
    {
      if !LiveSong(lib, source) || !LiveSetlist(lib, setlist) {
        return NotFound;
      }
      var band := lib.setlists[setlist].band;
      var song := source;
      if band.Some? {
        var own := BandSongFor(band.value, source, actor, newId);
        if own.None? {
          return NotFound;
        }
        song := own.value;
      } else if lib.songs[source].band.Some? {
        return NotFound;
      }
      if HasSong(lib, setlist, song) {
        return AlreadyThere;
      }
      ghost var resolved := lib;
      LinkSong(setlist, song);
      LinksFrom(old(lib), resolved, lib, setlist, song);
      return Added(song);
    }

    /** Out of a setlist the song is unlinked; out of the repertoire it leaves the
        band: it goes to the trash and every link to it stays. */
    method RemoveSongFromSetlist(setlist: Id, song: Id) returns (found: bool)
      requires Sound(lib)
      modifies this
      ensures Sound(lib)
      ensures found <==> old(LiveSetlist(lib, setlist) && HasSong(lib, setlist, song)
                             && (lib.setlists[setlist].isRepertoire ==> lib.songs[song].live))
      ensures !found ==> lib == old(lib)
      ensures found && !old(lib).setlists[setlist].isRepertoire ==>
        && lib == RemoveSong(old(lib), setlist, song)
        && forall l: Id, x: Id :: HasSong(lib, l, x) <==> HasSong(old(lib), l, x) && (l, x) != (setlist, song)
      ensures found && !old(lib).setlists[setlist].isRepertoire ==>
        forall i :: 0 <= i < |old(lib).setlists[setlist].songs| && old(lib).setlists[setlist].songs[i] == song ==>
          lib.setlists[setlist].songs == old(lib).setlists[setlist].songs[..i] + old(lib).setlists[setlist].songs[i + 1..]
      ensures found && old(lib).setlists[setlist].isRepertoire ==>
        && lib == TrashSong(old(lib), song)
        && !LiveSong(lib, song) && forall id :: id != song ==> LiveSong(lib, id) == LiveSong(old(lib), id)
      ensures found && old(lib).setlists[setlist].isRepertoire && old(lib).setlists[setlist].band.Some? ==>
        lib.setlists == old(lib.setlists)
    {
      if !LiveSetlist(lib, setlist) || !HasSong(lib, setlist, song) {
        return false;
      }
      if lib.setlists[setlist].isRepertoire {
        if !lib.songs[song].live {
          return false;
        }
        TrashSound(lib, song);
        lib := TrashSong(lib, song);
      } else {
        RemoveSound(lib, setlist, song);
        OthersStay(lib.setlists[setlist].songs, song);
        lib := RemoveSong(lib, setlist, song);
      }
      return true;
    }
  }
}

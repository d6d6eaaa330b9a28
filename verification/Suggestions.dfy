/**
 The suggestion handlers, one request at a time, on rows, setlists and notices
 in place. `hasRoom` is whether the setlist's quota lets one more song in.
 */
module Suggestions {
  import opened Options
  import opened SuggestionRows
  import P = SuggestionProtocol
  import Lib = BandLibrary
  import Scope = SetlistScope
  import Setlists

  datatype Result = Done | Closed | NotFound | Forbidden | QuotaReached

  /** The song, or the band's copy of it, is in the suggestion's setlist. */
  ghost predicate InSetlist(lib: Lib.Library, row: Row) {
    exists song :: Lib.HasSong(lib, row.setlist, song) && Setlists.StandsFor(lib, song, Some(row.band), row.song)
  }

  /** What accepting needs of the library: the setlist is the band's, the song its
      own or a personal one. */
  predicate CanAdd(lib: Lib.Library, row: Row) {
    && Setlists.Takes(lib, row.setlist, row.song)
    && lib.setlists[row.setlist].band == Some(row.band)
  }

  lemma CanAddExactly(lib: Lib.Library, row: Row)
    ensures CanAdd(lib, row) <==>
      && row.song in lib.songs && lib.songs[row.song].live
      && row.setlist in lib.setlists && lib.setlists[row.setlist].live
      && lib.setlists[row.setlist].band == Some(row.band)
      && (lib.songs[row.song].band == None || lib.songs[row.song].band == Some(row.band))
  {}

  /** If a song that stands for the suggested one was in the setlist, it is this. */
  lemma OnlyOneStands(lib: Lib.Library, lib': Lib.Library, row: Row, song: Id)
    requires Scope.Sound(lib') && Scope.Keeps(lib, lib') && Setlists.StandsFor(lib', song, Some(row.band), row.song)
    requires Setlists.SongsStay(lib, lib')
    ensures InSetlist(lib, row) ==> Lib.HasSong(lib, row.setlist, song) && song in lib.songs
  {
    if InSetlist(lib, row) {
      var x :| Lib.HasSong(lib, row.setlist, x) && Setlists.StandsFor(lib, x, Some(row.band), row.song);
      if x != song {
        assert Lib.IsLiveCopy(lib', x, row.band, row.song) && Lib.IsLiveCopy(lib', song, row.band, row.song);
      }
    }
  }

  ghost predicate NoLinkLost(lib: Lib.Library, lib': Lib.Library) {
    forall l: Id, x: Id :: Lib.HasSong(lib, l, x) ==> Lib.HasSong(lib', l, x)
  }

  lemma LinkingLosesNone(lib: Lib.Library, lib': Lib.Library, setlist: Id, song: Id)
    requires setlist in lib.setlists && Setlists.Links(lib, lib', setlist, song)
    ensures NoLinkLost(lib, lib') && Lib.HasSong(lib', setlist, song)
  {
    var r :| Scope.RepertoireFor(lib, setlist, r) && Setlists.LinkedWith(lib, lib', setlist, r, song);
  }

  /** The same but for what closing or opening a suggestion writes. */
  predicate SameOpen(row: Row, row': Row) {
    row == row'.(status := row.status, resolvedBy := row.resolvedBy, resolvedAt := row.resolvedAt, note := row.note,
                 updatedAt := row.updatedAt)
  }

  /** The band accepts on votes, and enough others carried the suggestion. */
  ghost predicate Accepts(row: Row, members: set<Id>, threshold: Option<int>) {
    threshold.Some? && threshold.value > 0 && IsCarried(row, members, threshold.value)
  }

  /** Just the suggester was told how it ended, and only by somebody else. */
  predicate Told(before: seq<P.Notice>, after: seq<P.Notice>, id: Id, suggester: Option<Id>, closer: Option<Id>,
                 status: Status, named: bool)
  {
    if named && suggester.Some? && suggester != closer then after == before + [P.Notice(id, suggester.value, status)]
    else after == before
  }

  class Band {
    var rows: map<Id, Row>
    var notices: seq<P.Notice>
    const store: Setlists.Store

    constructor (store: Setlists.Store)
      ensures this.store == store && rows == map[] && notices == []
    {
      this.store := store;
      rows := map[];
      notices := [];
    }

    ghost predicate Valid()
      reads this, store
    {
      Scope.Sound(store.lib)
    }

    /** A repertoire has no limit of its own; a song already there needs no room. */
    method PutIn(setlist: Id, song: Id, hasRoom: bool) returns (result: Result)
      requires Valid() && Scope.SongFits(store.lib, setlist, song)
      modifies store
      ensures Valid() && Scope.Keeps(old(store.lib), store.lib) && store.lib.songs == old(store.lib.songs)
      ensures NoLinkLost(old(store.lib), store.lib)
      ensures result == if old(Lib.HasSong(store.lib, setlist, song)) || hasRoom || old(store.lib).setlists[setlist].isRepertoire
                        then Done else QuotaReached
      ensures result.Done? ==> Lib.HasSong(store.lib, setlist, song)
      ensures result.QuotaReached? || old(Lib.HasSong(store.lib, setlist, song)) ==> store.lib == old(store.lib)
    {
      if Lib.HasSong(store.lib, setlist, song) {
        return Done;
      }
      if !store.lib.setlists[setlist].isRepertoire && !hasRoom {
        return QuotaReached;
      }
      store.LinkSong(setlist, song);
      LinkingLosesNone(old(store.lib), store.lib, setlist, song);
      return Done;
    }

    /** The effect of an acceptance; doing it again changes nothing. */
    method AddSuggestedSong(row: Row, actor: Id, newId: Id, hasRoom: bool) returns (result: Result)
      requires Valid() && newId !in store.lib.songs
      modifies store
      ensures Valid() && Scope.Keeps(old(store.lib), store.lib)
      ensures result.Done? || result.NotFound? || result.QuotaReached?
      ensures result.NotFound? <==> !old(CanAdd(store.lib, row))
      ensures result.NotFound? ==> store.lib == old(store.lib)
      ensures result.QuotaReached? ==> !hasRoom && store.lib.setlists == old(store.lib.setlists)
      ensures result.Done? ==> InSetlist(store.lib, row)
      ensures NoLinkLost(old(store.lib), store.lib)
      ensures old(InSetlist(store.lib, row) && CanAdd(store.lib, row)) ==> result.Done? && store.lib == old(store.lib)
    {
      if !CanAdd(store.lib, row) {
        return NotFound;
      }
      var own := store.BandSongFor(row.band, row.song, actor, newId);
      OnlyOneStands(old(store.lib), store.lib, row, own.value);
      result := PutIn(row.setlist, own.value, hasRoom);
      assert result.Done? ==> Setlists.StandsFor(store.lib, own.value, Some(row.band), row.song);
    }

    /** `resolve`: true if this call closed the suggestion. */
    method Resolve(id: Id, status: Status, resolver: Option<Id>, note: Option<string>, now: Time) returns (ok: bool)
      requires id in rows
      modifies this`rows
      ensures ok <==> old(rows)[id].status == Open
      ensures !ok ==> rows == old(rows)
      ensures ok ==> rows == old(rows)[id := old(rows)[id].(status := status, resolvedBy := resolver,
                                                         resolvedAt := Some(now), note := note, updatedAt := now)]
    {
      var resolved := SuggestionRows.Resolve(rows[id], status, resolver, note, now);
      ok := resolved.Some?;
      if ok {
        rows := rows[id := resolved.value];
      }
    }

    /** Tells the suggester, unless they closed it themselves. `named` is whether
        the band's name could be read. */
    method NotifyResolution(id: Id, row: Row, intent: P.Intent, named: bool)
      modifies this`notices
      ensures notices == old(notices) + P.NoticeFor(id, row, intent, named)
    {
      if row.suggestedBy.Some? && row.suggestedBy != P.ResolverOf(intent) && named {
        notices := notices + [P.Notice(id, row.suggestedBy.value, P.StatusOf(intent))];
      }
    }

    /** `rows` but for what closing `id` writes. */
    ghost predicate ClosedOnly(before: map<Id, Row>, id: Id, intent: P.Intent, now: Time)
      requires id in before
      reads this
    {
      rows == before[id := before[id].(status := P.StatusOf(intent), resolvedBy := P.ResolverOf(intent),
                                       resolvedAt := Some(now), note := P.NoteOf(intent), updatedAt := now)]
    }

    /** Claims an open suggestion and does the effect, or undoes the claim. */
    method ClaimAndAdd(id: Id, intent: P.Intent, newId: Id, hasRoom: bool, reopens: bool, now: Time) returns (result: Result)
      requires Valid() && id in rows && newId !in store.lib.songs && P.StatusOf(intent) == Accepted && Clean(rows[id])
      modifies this`rows, store
      ensures Valid() && result in {Done, NotFound, QuotaReached}
      ensures result.Done? ==> ClosedOnly(old(rows), id, intent, now) && InSetlist(store.lib, old(rows)[id])
      ensures old(CanAdd(store.lib, rows[id])) && hasRoom ==> result.Done?
      ensures !result.Done? ==>
        if reopens then rows == old(rows)[id := old(rows)[id].(updatedAt := now)] else ClosedOnly(old(rows), id, intent, now)
    {
      var row := rows[id];
      var claimed := Resolve(id, Accepted, P.ResolverOf(intent), P.NoteOf(intent), now);
      result := AddSuggestedSong(row, P.ActorOf(intent), newId, hasRoom);
      if !result.Done? && reopens {
        Undo(id, row, now);
      }
    }

    /** The claim is undone: the row is as before it, but for when it was touched. */
    method Undo(id: Id, ghost was: Row, now: Time)
      requires id in rows && rows[id].status == Accepted && Clean(was)
      requires SameOpen(was, rows[id])
      modifies this`rows
      ensures rows == old(rows)[id := was.(updatedAt := now)]
    {
      rows := rows[id := Reopen(rows[id], now)];
    }

    /** Claims, does the effect, and undoes the claim if that fails. The outcome
        says all there is to see: refused, nothing changed; done, the suggestion is
        closed and the song in the setlist; failed, it is open as before. If it
        could not be opened again it stays accepted, its song perhaps nowhere. */
    method Accept(id: Id, intent: P.Intent, newId: Id, hasRoom: bool, reopens: bool, named: bool, now: Time)
      returns (result: Result)
      requires Valid() && id in rows && newId !in store.lib.songs && P.StatusOf(intent) == Accepted
      requires rows[id].status == Open ==> Clean(rows[id])
      modifies this, store
      ensures Valid()
      ensures result.Closed? <==> old(rows)[id].status != Open
      ensures result.Closed? ==> rows == old(rows) && notices == old(notices) && store.lib == old(store.lib)
      ensures result.Done? ==> ClosedOnly(old(rows), id, intent, now) && InSetlist(store.lib, rows[id])
      ensures old(rows[id].status == Open && CanAdd(store.lib, rows[id])) && hasRoom ==> result.Done?
      ensures result.Done? ==> rows == old(rows)[id := old(rows)[id].(
        status := Accepted, resolvedBy := if intent.AutoAccept? then None else Some(intent.user),
        note := if intent.AcceptBy? then intent.note else None, resolvedAt := Some(now), updatedAt := now)]
      ensures result.Done? ==> Told(old(notices), notices, id, old(rows)[id].suggestedBy, rows[id].resolvedBy, Accepted, named)
      ensures !result.Done? ==> notices == old(notices)
      ensures !result.Done? && !result.Closed? && Lib.LiveSong(old(store.lib), old(rows)[id].song) ==>
        if reopens then rows == old(rows)[id := old(rows)[id].(updatedAt := now)] else ClosedOnly(old(rows), id, intent, now)
      ensures !result.Closed? && !Lib.LiveSong(old(store.lib), old(rows)[id].song) ==>
        result.NotFound? && rows == old(rows) && store.lib == old(store.lib)
    {
      var row := rows[id];
      if row.status != Open {
        return Closed;
      }
      if !Lib.LiveSong(store.lib, row.song) {
        return NotFound;
      }
      result := ClaimAndAdd(id, intent, newId, hasRoom, reopens, now);
      if !result.Done? {
        return;
      }
      NotifyResolution(id, row, intent, named);
    }

    method Reject(id: Id, user: Id, note: Option<string>, named: bool, now: Time) returns (result: Result)
      requires id in rows
      modifies this
      ensures result == if old(rows)[id].status == Open then Done else Closed
      ensures result.Closed? ==> rows == old(rows) && notices == old(notices)
      ensures result.Done? ==> rows == old(rows)[id := old(rows)[id].(
        status := Rejected, resolvedBy := Some(user), note := note, resolvedAt := Some(now), updatedAt := now)]
      ensures result.Done? ==> Told(old(notices), notices, id, old(rows)[id].suggestedBy, Some(user), Rejected, named)
    {
      var row := rows[id];
      var closed := Resolve(id, Rejected, Some(user), note, now);
      if !closed {
        return Closed;
      }
      NotifyResolution(id, row, P.RejectBy(user, note), named);
      return Done;
    }

    /** Only the suggester may, and nobody is told. */
    method Withdraw(id: Id, user: Id, now: Time) returns (result: Result)
      requires id in rows
      modifies this`rows
      ensures result.Forbidden? <==> old(rows)[id].suggestedBy != Some(user)
      ensures result.Closed? <==> old(rows)[id].suggestedBy == Some(user) && old(rows)[id].status != Open
      ensures result.Done? <==> old(rows)[id].suggestedBy == Some(user) && old(rows)[id].status == Open
      ensures result.Done? ==> rows == old(rows)[id := old(rows)[id].(
        status := Withdrawn, resolvedBy := Some(user), note := None, resolvedAt := Some(now), updatedAt := now)]
      ensures !result.Done? ==> rows == old(rows)
    {
      if rows[id].suggestedBy != Some(user) {
        return Forbidden;
      }
      var closed := Resolve(id, Withdrawn, Some(user), None, now);
      return if closed then Done else Closed;
    }

    /** Whether the vote was counted, and brought the votes to the threshold. */
    method CountVote(id: Id, user: Id, value: int, members: set<Id>, threshold: Option<int>) returns (ok: bool, reached: bool)
      requires id in rows
      modifies this`rows
      ensures ok <==> old(rows)[id].status == Open
      ensures rows == if ok then old(rows)[id := old(rows)[id].(votes := old(rows)[id].votes[user := value])] else old(rows)
      ensures ok ==> (reached <==> Accepts(rows[id], members, threshold))
    {
      var voted := SuggestionRows.Vote(rows[id], user, value);
      if voted.None? {
        return false, false;
      }
      rows := rows[id := voted.value];
      VotesDecide(rows[id], members, threshold);
      return true, Reaches(rows[id], members, threshold);
    }

    /** A vote that brings the others' votes to the threshold accepts; that the
        acceptance failed is no failure of the vote. */
    method Vote(id: Id, user: Id, value: int, members: set<Id>, threshold: Option<int>,
                newId: Id, hasRoom: bool, reopens: bool, named: bool, now: Time) returns (result: Result)
      requires Valid() && id in rows && newId !in store.lib.songs
      requires rows[id].status == Open ==> Clean(rows[id])
      modifies this, store
      ensures Valid()
      ensures result == if old(rows)[id].status == Open then Done else Closed
      ensures result.Closed? ==> rows == old(rows) && notices == old(notices) && store.lib == old(store.lib)
      ensures result.Done? ==> id in rows && rows[id].votes == old(rows)[id].votes[user := value]
      ensures result.Done? ==> rows == old(rows)[id := rows[id]]
      ensures result.Done? && old(CanAdd(store.lib, rows[id])) && hasRoom ==>
        (rows[id].status == Accepted <==> Accepts(old(rows)[id].(votes := rows[id].votes), members, threshold))
      ensures result.Done? && !Accepts(old(rows)[id].(votes := rows[id].votes), members, threshold) ==>
        rows[id].status == Open && notices == old(notices) && store.lib == old(store.lib)
      ensures result.Done? && rows[id].status != Open ==>
        rows[id].status == Accepted && rows[id].resolvedBy == None && (InSetlist(store.lib, rows[id]) || !reopens)
    {
      var ok, reached := CountVote(id, user, value, members, threshold);
      if !ok {
        return Closed;
      }
      if reached {
        var accepted := Accept(id, P.AutoAccept(user), newId, hasRoom, reopens, named, now);
      }
      return Done;
    }
  }
}

/**
 The export of a tour: each gig with its setlist if the caller may take that, each
 setlist once, and each asked about once.
 */
module TourExport {
  import opened Options
  import opened Collections

  type Id = nat

  datatype Gig = Gig(id: Id, setlist: Option<Id>, venue: string)

  datatype BackupGig = BackupGig(id: Id, venue: string, setlist: Option<Id>, tour: Id)

  /** A setlist with its running order. */
  datatype Bundle = Bundle(setlist: Id, items: seq<Id>)

  /** What asking for a setlist gives: its running order, a refusal, or a failure
      that ends the export. */
  datatype Answer = Exportable(items: seq<Id>) | NotExportable | Failed

  type Oracle = Id -> Answer

  datatype Export = Export(gigs: seq<BackupGig>, setlists: seq<Bundle>)

  datatype Result = Ok(file: Export) | Error

  // ----- the plain way -----------------------------------------------------

  /** The tour's gigs that can be read, in its order; each is taken out once. */
  function Listed(summaries: seq<Id>, gigs: map<Id, Gig>): seq<Gig> {
    if summaries == [] then []
    else if summaries[0] in gigs then [gigs[summaries[0]]] + Listed(summaries[1..], gigs - {summaries[0]})
    else Listed(summaries[1..], gigs)
  }

  function WantedBy(gig: Gig): seq<Id> {
    if gig.setlist.Some? then [gig.setlist.value] else []
  }

  function Wanted(gigs: seq<Gig>): seq<Id> {
    if gigs == [] then [] else WantedBy(gigs[0]) + Wanted(gigs[1..])
  }

  /** Each once, where it first comes up. */
  function Firsts(ids: seq<Id>): seq<Id> {
    if ids == [] then []
    else
      var before, last := Firsts(ids[..|ids| - 1]), ids[|ids| - 1];
      if last in before then before else before + [last]
  }

  function ExportGig(gig: Gig, ask: Oracle, tour: Id): BackupGig {
    BackupGig(gig.id, gig.venue,
              if gig.setlist.Some? && ask(gig.setlist.value).Exportable? then gig.setlist else None, tour)
  }

  function ExportGigs(gigs: seq<Gig>, ask: Oracle, tour: Id): seq<BackupGig> {
    if gigs == [] then [] else [ExportGig(gigs[0], ask, tour)] + ExportGigs(gigs[1..], ask, tour)
  }

  function BundleOf(id: Id, ask: Oracle): seq<Bundle> {
    if ask(id).Exportable? then [Bundle(id, ask(id).items)] else []
  }

  function Bundles(ids: seq<Id>, ask: Oracle): seq<Bundle> {
    if ids == [] then [] else BundleOf(ids[0], ask) + Bundles(ids[1..], ask)
  }

  predicate Fails(ids: seq<Id>, ask: Oracle) {
    exists id :: id in ids && ask(id).Failed?
  }

  /** Ask about every gig's setlist, leave out what is not exportable, and list each
      setlist once, where it first comes up. */
  function NaiveExport(gigs: seq<Gig>, ask: Oracle, tour: Id): Result {
    if Fails(Wanted(gigs), ask) then Error
    else Ok(Export(ExportGigs(gigs, ask, tour), Bundles(Firsts(Wanted(gigs)), ask)))
  }

  // ----- one more gig ------------------------------------------------------

  lemma {:induction false} OneMoreWanted(gigs: seq<Gig>, gig: Gig)
    ensures Wanted(gigs + [gig]) == Wanted(gigs) + WantedBy(gig)
  {
    if gigs == [] {
      assert gigs + [gig] == [gig] && [gig][1..] == [];
    } else {
      OneMoreWanted(gigs[1..], gig);
      assert (gigs + [gig])[1..] == gigs[1..] + [gig];
      Assoc(WantedBy(gigs[0]), Wanted(gigs[1..]), WantedBy(gig));
    }
  }

  lemma {:induction false} OneMoreGig(gigs: seq<Gig>, gig: Gig, ask: Oracle, tour: Id)
    ensures ExportGigs(gigs + [gig], ask, tour) == ExportGigs(gigs, ask, tour) + [ExportGig(gig, ask, tour)]
  {
    if gigs == [] {
      assert gigs + [gig] == [gig] && [gig][1..] == [];
    } else {
      OneMoreGig(gigs[1..], gig, ask, tour);
      assert (gigs + [gig])[1..] == gigs[1..] + [gig];
    }
  }

  lemma {:induction false} OneMoreBundle(ids: seq<Id>, id: Id, ask: Oracle)
    ensures Bundles(ids + [id], ask) == Bundles(ids, ask) + BundleOf(id, ask)
  {
    if ids == [] {
      assert ids + [id] == [id] && [id][1..] == [];
    } else {
      OneMoreBundle(ids[1..], id, ask);
      assert (ids + [id])[1..] == ids[1..] + [id];
      Assoc(BundleOf(ids[0], ask), Bundles(ids[1..], ask), BundleOf(id, ask));
    }
  }

  lemma OneMoreFirst(ids: seq<Id>, id: Id)
    ensures Firsts(ids + [id]) == if id in Firsts(ids) then Firsts(ids) else Firsts(ids) + [id]
  {
    assert (ids + [id])[..|ids|] == ids;
  }

  lemma {:induction false} FirstsAreAll(ids: seq<Id>)
    ensures forall id :: id in Firsts(ids) <==> id in ids
    ensures Distinct(Firsts(ids))
  {
    if ids != [] {
      FirstsAreAll(ids[..|ids| - 1]);
      assert ids == ids[..|ids| - 1] + [ids[|ids| - 1]];
    }
  }

  /** One setlist comes before another just as their first gigs do. */
  lemma {:induction false} FirstsInOrder(ids: seq<Id>, j: nat, k: nat) returns (at: nat)
    requires j < k < |Firsts(ids)|
    ensures at < |ids| && ids[at] == Firsts(ids)[j] && Firsts(ids)[k] !in ids[..at + 1]
  {
    var init, last := ids[..|ids| - 1], ids[|ids| - 1];
    if k < |Firsts(init)| {
      at := FirstsInOrder(init, j, k);
      assert ids[..at + 1] == init[..at + 1];
    } else {
      FirstsAreAll(init);
      assert Firsts(init)[j] in init;
      at :| 0 <= at < |init| && init[at] == Firsts(init)[j];
      assert ids[..at + 1] == init[..at + 1];
    }
  }

  // ----- the loop ----------------------------------------------------------

  /** What the export has found out: `included` and `refused` remember the answer
      for every setlist asked about. */
  datatype Memo = Memo(included: set<Id>, refused: set<Id>, setlists: seq<Bundle>, asked: seq<Id>) {
    ghost predicate Valid(ask: Oracle) {
      && (forall id :: id in included <==> id in asked && ask(id).Exportable?)
      && (forall id :: id in refused <==> id in asked && ask(id).NotExportable?)
      && (forall id :: id in asked ==> !ask(id).Failed?)
      && setlists == Bundles(asked, ask)
      && Distinct(asked)
    }
  }

  /** The setlist a gig goes with, asked about only if nobody did before; `None` is
      the failure that ends the export. */
  method Resolve(gig: Gig, memo: Memo, ask: Oracle) returns (setlist: Option<Id>, next: Option<Memo>)
    requires memo.Valid(ask)
    ensures next.None? <==> gig.setlist.Some? && ask(gig.setlist.value).Failed?
    ensures next.Some? ==> next.value.Valid(ask)
    ensures next.Some? ==>
      next.value.asked == if gig.setlist.Some? && gig.setlist.value !in memo.asked
                          then memo.asked + [gig.setlist.value] else memo.asked
    ensures next.Some? ==>
      setlist == if gig.setlist.Some? && ask(gig.setlist.value).Exportable? then gig.setlist else None
  {
    if gig.setlist.None? || gig.setlist.value in memo.refused {
      return None, Some(memo);
    }
    var wanted := gig.setlist.value;
    if wanted in memo.included {
      return Some(wanted), Some(memo);
    }
    OneMoreBundle(memo.asked, wanted, ask);
    match ask(wanted)
    case Failed => return None, None;
    case Exportable(items) =>
      return Some(wanted),
             Some(Memo(memo.included + {wanted}, memo.refused, memo.setlists + [Bundle(wanted, items)], memo.asked + [wanted]));
    case NotExportable =>
      return None, Some(Memo(memo.included, memo.refused + {wanted}, memo.setlists, memo.asked + [wanted]));
  }

  /** One more gig: what asking about it did is what the plain way does. */
  lemma OneMoreAsked(done: seq<Gig>, gig: Gig, asked: seq<Id>)
    requires asked == Firsts(Wanted(done))
    ensures Firsts(Wanted(done + [gig])) ==
      if gig.setlist.Some? && gig.setlist.value !in asked then asked + [gig.setlist.value] else asked
  {
    OneMoreWanted(done, gig);
    if gig.setlist.Some? {
      OneMoreFirst(Wanted(done), gig.setlist.value);
    } else {
      assert Wanted(done) + [] == Wanted(done);
    }
  }

  lemma NoneFails(gigs: seq<Gig>, memo: Memo, ask: Oracle)
    requires memo.Valid(ask) && memo.asked == Firsts(Wanted(gigs))
    ensures !Fails(Wanted(gigs), ask)
  {
    FirstsAreAll(Wanted(gigs));
  }

  lemma FailsHere(done: seq<Gig>, gig: Gig, rest: seq<Gig>, ask: Oracle)
    requires gig.setlist.Some? && ask(gig.setlist.value).Failed?
    ensures Fails(Wanted(done + [gig] + rest), ask)
  {
    OneMoreWanted(done, gig);
    WantedSplits(done + [gig], rest);
    assert gig.setlist.value in Wanted(done + [gig] + rest);
  }

  /** The gigs, with each setlist asked about at its first gig only. `asked` lists
      the setlists asked about, in order. */
  method ExportTour(summaries: seq<Id>, gigs: map<Id, Gig>, ask: Oracle, tour: Id)
    returns (result: Result, asked: seq<Id>)
    ensures result == NaiveExport(Listed(summaries, gigs), ask, tour)
    ensures result.Ok? ==> asked == Firsts(Wanted(Listed(summaries, gigs)))
    ensures Distinct(asked)
  {
    var byId := gigs;
    var written: seq<BackupGig> := [];
    var memo := Memo({}, {}, [], []);
    ghost var done: seq<Gig> := [];
    ghost var all := Listed(summaries, gigs);
    for i := 0 to |summaries|
      invariant all == done + Listed(summaries[i..], byId)
      invariant written == ExportGigs(done, ask, tour)
      invariant memo.Valid(ask) && memo.asked == Firsts(Wanted(done))
    {
      assert summaries[i..][1..] == summaries[i + 1..];
      if summaries[i] in byId {
        var gig := byId[summaries[i]];
        byId := byId - {summaries[i]};
        assert all == done + [gig] + Listed(summaries[i + 1..], byId);
        var setlist, next := Resolve(gig, memo, ask);
        if next.None? {
          FailsHere(done, gig, Listed(summaries[i + 1..], byId), ask);
          return Error, memo.asked;
        }
        OneMoreAsked(done, gig, memo.asked);
        OneMoreGig(done, gig, ask, tour);
        memo := next.value;
        written := written + [BackupGig(gig.id, gig.venue, setlist, tour)];
        done := done + [gig];
      }
    }
    assert all == done;
    NoneFails(done, memo, ask);
    return Ok(Export(written, memo.setlists)), memo.asked;
  }

  lemma {:induction false} WantedSplits(a: seq<Gig>, b: seq<Gig>)
    ensures Wanted(a + b) == Wanted(a) + Wanted(b)
  {
    if b == [] {
      assert a + b == a;
    } else {
      var last := b[|b| - 1];
      var init := b[..|b| - 1];
      assert b == init + [last];
      assert a + b == (a + init) + [last];
      WantedSplits(a, init);
      OneMoreWanted(a + init, last);
      OneMoreWanted(init, last);
    }
  }

  // ----- what the file holds -----------------------------------------------

  function SetlistIds(bundles: seq<Bundle>): seq<Id> {
    if bundles == [] then [] else [bundles[0].setlist] + SetlistIds(bundles[1..])
  }

  lemma {:induction false} BundledIds(ids: seq<Id>, ask: Oracle)
    requires Distinct(ids)
    ensures Distinct(SetlistIds(Bundles(ids, ask)))
    ensures forall id :: id in SetlistIds(Bundles(ids, ask)) <==> id in ids && ask(id).Exportable?
    ensures forall b :: b in Bundles(ids, ask) ==> b.setlist in ids && ask(b.setlist) == Exportable(b.items)
  {
    if ids != [] {
      BundledIds(ids[1..], ask);
      var rest := Bundles(ids[1..], ask);
      assert ids[0] !in ids[1..] && ids == [ids[0]] + ids[1..];
      if ask(ids[0]).Exportable? {
        var first := Bundle(ids[0], ask(ids[0]).items);
        assert Bundles(ids, ask) == [first] + rest && ([first] + rest)[1..] == rest;
        assert SetlistIds(Bundles(ids, ask)) == [ids[0]] + SetlistIds(rest);
      } else {
        assert Bundles(ids, ask) == rest;
      }
    }
  }

  lemma {:induction false} ExportedGigs(gigs: seq<Gig>, ask: Oracle, tour: Id)
    ensures |ExportGigs(gigs, ask, tour)| == |gigs|
    ensures forall i :: 0 <= i < |gigs| ==> ExportGigs(gigs, ask, tour)[i] == ExportGig(gigs[i], ask, tour)
  {
    if gigs != [] {
      ExportedGigs(gigs[1..], ask, tour);
    }
  }

  lemma {:induction false} WantedAreOfGigs(gigs: seq<Gig>)
    ensures forall id :: id in Wanted(gigs) <==> exists i :: 0 <= i < |gigs| && gigs[i].setlist == Some(id)
  {
    if gigs != [] {
      WantedAreOfGigs(gigs[1..]);
      forall id ensures id in Wanted(gigs) <==> exists i :: 0 <= i < |gigs| && gigs[i].setlist == Some(id) {
        if id in Wanted(gigs[1..]) {
          var i :| 0 <= i < |gigs[1..]| && gigs[1..][i].setlist == Some(id);
          assert gigs[i + 1].setlist == Some(id);
        }
        if i :| 0 < i < |gigs| && gigs[i].setlist == Some(id) {
          assert gigs[1..][i - 1].setlist == Some(id);
        }
      }
    }
  }

  ghost predicate Refers(gigs: seq<BackupGig>, id: Id) {
    exists i :: 0 <= i < |gigs| && gigs[i].setlist == Some(id)
  }

  /** In an exported file every setlist is there once, with its running order; it is
      there just when some gig of the file refers to it; and there is a gig for each
      that could be read, in order, with its setlist exactly if that is exportable. */
  lemma FileIsWhole(gigs: seq<Gig>, ask: Oracle, tour: Id)
    requires NaiveExport(gigs, ask, tour).Ok?
    ensures var file := NaiveExport(gigs, ask, tour).file;
      && Distinct(SetlistIds(file.setlists))
      && (forall b :: b in file.setlists ==> ask(b.setlist) == Exportable(b.items))
      && (forall id :: id in SetlistIds(file.setlists) <==> Refers(file.gigs, id))
      && |file.gigs| == |gigs|
      && forall i :: 0 <= i < |gigs| ==>
           && file.gigs[i].id == gigs[i].id && file.gigs[i].venue == gigs[i].venue && file.gigs[i].tour == tour
           && file.gigs[i].setlist ==
                if gigs[i].setlist.Some? && ask(gigs[i].setlist.value).Exportable? then gigs[i].setlist else None
  {
    var file := NaiveExport(gigs, ask, tour).file;
    FirstsAreAll(Wanted(gigs));
    BundledIds(Firsts(Wanted(gigs)), ask);
    ExportedGigs(gigs, ask, tour);
    WantedAreOfGigs(gigs);
    forall id ensures id in SetlistIds(file.setlists) <==> Refers(file.gigs, id) {
      if id in SetlistIds(file.setlists) {
        var i :| 0 <= i < |gigs| && gigs[i].setlist == Some(id);
        assert file.gigs[i].setlist == Some(id);
      }
      if Refers(file.gigs, id) {
        var i :| 0 <= i < |file.gigs| && file.gigs[i].setlist == Some(id);
        assert gigs[i].setlist == Some(id);
      }
    }
  }

  /** The export fails exactly if asking for some gig's setlist does. */
  lemma FailsExactly(gigs: seq<Gig>, ask: Oracle, tour: Id)
    ensures NaiveExport(gigs, ask, tour).Error? <==>
      exists i :: 0 <= i < |gigs| && gigs[i].setlist.Some? && ask(gigs[i].setlist.value).Failed?
  {
    WantedAreOfGigs(gigs);
    if i :| 0 <= i < |gigs| && gigs[i].setlist.Some? && ask(gigs[i].setlist.value).Failed? {
      assert gigs[i].setlist == Some(gigs[i].setlist.value);
    }
  }

  function Kept(ids: seq<Id>, keys: set<Id>): seq<Id> {
    if ids == [] then []
    else if ids[0] in keys then [ids[0]] + Kept(ids[1..], keys)
    else Kept(ids[1..], keys)
  }

  function GigIds(gigs: seq<Gig>): seq<Id> {
    if gigs == [] then [] else [gigs[0].id] + GigIds(gigs[1..])
  }

  lemma {:induction false} KeptWithout(ids: seq<Id>, keys: set<Id>, id: Id)
    requires id !in ids
    ensures Kept(ids, keys - {id}) == Kept(ids, keys)
  {
    if ids != [] {
      KeptWithout(ids[1..], keys, id);
    }
  }

  /** The gigs come in the tour's order, every one that can be read. */
  lemma {:induction false} GigsKeepTheOrder(summaries: seq<Id>, gigs: map<Id, Gig>)
    requires Distinct(summaries) && forall id :: id in gigs ==> gigs[id].id == id
    ensures GigIds(Listed(summaries, gigs)) == Kept(summaries, gigs.Keys)
  {
    if summaries != [] {
      var rest := summaries[1..];
      if summaries[0] in gigs {
        GigsKeepTheOrder(rest, gigs - {summaries[0]});
        assert (gigs - {summaries[0]}).Keys == gigs.Keys - {summaries[0]};
        KeptWithout(rest, gigs.Keys, summaries[0]);
        assert ([gigs[summaries[0]]] + Listed(rest, gigs - {summaries[0]}))[1..] == Listed(rest, gigs - {summaries[0]});
      } else {
        GigsKeepTheOrder(rest, gigs);
      }
    }
  }
}

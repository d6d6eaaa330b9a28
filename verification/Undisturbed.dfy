/**
 What a request on a setlist comes to when nobody disturbs it: it puts its song in
 exactly if the setlist may take it.
 */
module Undisturbed {
  import opened Options
  import opened BandLibrary
  import opened SetlistScope

  /** The steps are possible one after the other and lead from `s` to `s'`. */
  ghost predicate Leads(s: State, steps: seq<Step>, s': State)
    decreases |steps|
  {
    if steps == [] then s' == s
    else Enabled(s, steps[0]) && Leads(Apply(s, steps[0]), steps[1..], s')
  }

  lemma {:induction false} Then(s: State, steps: seq<Step>, t: State, step: Step)
    requires Leads(s, steps, t) && Enabled(t, step)
    ensures Leads(s, steps + [step], Apply(t, step))
    decreases |steps|
  {
    if steps == [] {
      assert [step][1..] == [] && steps + [step] == [step];
    } else {
      Then(Apply(s, steps[0]), steps[1..], t, step);
      assert (steps + [step])[1..] == steps[1..] + [step];
    }
  }

  /** The setlist may take the song itself or, being a band's, a copy of it. */
  predicate CanTake(lib: Library, job: Job) {
    && LiveSetlist(lib, job.setlist) && LiveSong(lib, job.source)
    && (lib.songs[job.source].band == None || lib.songs[job.source].band == lib.setlists[job.setlist].band)
    && (job.Accept? ==> lib.setlists[job.setlist].band == Some(job.band))
  }

  /** A step of the request, after its first. */
  predicate IsOwn(step: Step, r: Id) {
    match step
    case Open(q) => q == r
    case Read(q) => q == r
    case Look(q, _) => q == r
    case Copy(q, _, _) => q == r
    case Check(q) => q == r
    case Link(q, _) => q == r
    case _ => false
  }

  predicate AreOf(steps: seq<Step>, r: Id) {
    forall i :: 0 <= i < |steps| ==> IsOwn(steps[i], r)
  }

  /** So far `r` has come, and what it found still is as it was but for a copy it made
      itself. */
  ghost predicate Comes(s: State, r: Id, steps: seq<Step>, s': State, phase: Phase) {
    && Leads(s, steps, s') && AreOf(steps, r)
    && r in s.requests && s'.requests == s.requests[r := Request(s.requests[r].job, phase)]
    && Inv(s') && s'.lib.setlists == s.lib.setlists
  }

  lemma OnlyLinkLinks(t: State, step: Step, r: Id)
    requires Enabled(t, step) && IsOwn(step, r) && !step.Link?
    ensures Apply(t, step).lib.setlists == t.lib.setlists
  {
    match step
    case Open(_) =>
    case Read(_) =>
    case Look(_, _) =>
    case Copy(_, _, _) =>
    case Check(_) =>
  }

  lemma ComesOn(s: State, r: Id, steps: seq<Step>, t: State, phase: Phase, step: Step, next: Phase)
    requires Comes(s, r, steps, t, phase) && Enabled(t, step) && IsOwn(step, r) && !step.Link?
    requires Apply(t, step).requests == t.requests[r := Request(s.requests[r].job, next)]
    ensures Comes(s, r, steps + [step], Apply(t, step), next)
  {
    Then(s, steps, t, step);
    StepKeepsInv(t, step);
    OnlyLinkLinks(t, step, r);
    SameButPhase(s.requests, r, phase, next);
  }

  lemma SameButPhase(requests: map<Id, Request>, r: Id, phase: Phase, next: Phase)
    requires r in requests
    ensures requests[r := Request(requests[r].job, phase)][r := Request(requests[r].job, next)]
         == requests[r := Request(requests[r].job, next)]
  {}

  /** A request that may not take its song is refused, and changes nothing. */
  lemma Refuses(s: State, r: Id) returns (steps: seq<Step>, s': State)
    requires Inv(s) && At(s, r, Begun) && !CanTake(s.lib, s.requests[r].job)
    requires s.requests[r].job.Add? ==> LiveSong(s.lib, s.requests[r].job.source)
    ensures Leads(s, steps, s') && AreOf(steps, r)
    ensures s' == s.(requests := s.requests[r := Request(s.requests[r].job, Failed)])
  {
    var job := s.requests[r].job;
    steps, s' := [], s;
    Then(s, steps, s', Open(r));
    steps, s' := [Open(r)], Apply(s', Open(r));
    if s'.requests[r].phase.Reading? {
      Then(s, steps, s', Read(r));
      steps, s' := [Open(r)] + [Read(r)], Apply(s', Read(r));
    }
  }

  /** The song the setlist takes for the one that was asked for. */
  ghost predicate IsTheSong(s: State, s': State, job: Job, song: Id) {
    && job.source in s.lib.songs && job.setlist in s.lib.setlists
    && if s.lib.songs[job.source].band == s.lib.setlists[job.setlist].band then song == job.source
       else s.lib.setlists[job.setlist].band.Some?
            && IsLiveCopy(s'.lib, song, s.lib.setlists[job.setlist].band.value, job.source)
  }

  /** The request finds its song: itself, the copy there is, or a new one. */
  lemma FindsSong(s: State, r: Id, newId: Id) returns (steps: seq<Step>, s': State, song: Id)
    requires Inv(s) && At(s, r, Begun) && CanTake(s.lib, s.requests[r].job) && newId !in s.lib.songs
    ensures Comes(s, r, steps, s', Checking(song)) && IsTheSong(s, s', s.requests[r].job, song)
    ensures s'.lib == s.lib || song == newId
  {
    var job := s.requests[r].job;
    var band := s.lib.setlists[job.setlist].band;
    assert s.requests[r := Request(job, Begun)] == s.requests;
    ComesOn(s, r, [], s, Begun, Open(r), Opened(s.lib, job));
    steps, s' := [] + [Open(r)], Apply(s, Open(r));
    if band == None {
      song := job.source;
    } else {
      var next := AfterReading(s.lib, band.value, job.source);
      ComesOn(s, r, steps, s', Reading(band.value), Read(r), next);
      steps, s' := steps + [Read(r)], Apply(s', Read(r));
      if s.lib.songs[job.source].band == band {
        song := job.source;
      } else {
        steps, s', song := FindsCopy(s, r, steps, s', band.value, newId);
      }
    }
  }

  lemma FindsCopy(s: State, r: Id, before: seq<Step>, t: State, band: Id, newId: Id)
    returns (steps: seq<Step>, s': State, song: Id)
    requires Comes(s, r, before, t, Looking(band)) && t.lib == s.lib && newId !in s.lib.songs
    ensures Comes(s, r, steps, s', Checking(song)) && IsLiveCopy(s'.lib, song, band, s.requests[r].job.source)
    ensures s'.lib == s.lib || song == newId
  {
    var source := s.requests[r].job.source;
    if id :| id in s.lib.songs && IsLiveCopy(s.lib, id, band, source) {
      var look := Look(r, Some(id));
      ComesOn(s, r, before, t, Looking(band), look, Checking(id));
      steps, s', song := before + [look], Apply(t, look), id;
    } else {
      var look := Look(r, None);
      ComesOn(s, r, before, t, Looking(band), look, Copying(band));
      steps, s', song := before + [look], Apply(t, look), newId;
      var copy := Copy(r, None, newId);
      ComesOn(s, r, steps, s', Copying(band), copy, Checking(newId));
      steps, s' := steps + [copy], Apply(s', copy);
    }
  }

  /** Adding what is there already is refused, accepting it is done; what is not there
      is put in. */
  ghost predicate Ends(s: State, s': State, r: Id, song: Id)
    requires r in s.requests
  {
    var job := s.requests[r].job;
    if HasSong(s.lib, job.setlist, song)
    then s'.lib == s.lib && At(s', r, if job.Accept? then Done(song) else Failed)
    else HasSong(s'.lib, job.setlist, song) && At(s', r, Done(song))
  }

  lemma NewIsNotThere(s: State, l: Id, newId: Id)
    requires Inv(s) && newId !in s.lib.songs
    ensures !HasSong(s.lib, l, newId)
  {}

  lemma LinksSong(s: State, r: Id, song: Id) returns (repertoire: Id)
    requires Inv(s) && At(s, r, Linking(song)) && LiveSetlist(s.lib, s.requests[r].job.setlist)
    ensures Enabled(s, Link(r, repertoire))
    ensures var s' := Apply(s, Link(r, repertoire));
      At(s', r, Done(song)) && HasSong(s'.lib, s.requests[r].job.setlist, song) && s'.lib.songs == s.lib.songs
  {
    var l := s.requests[r].job.setlist;
    repertoire := l;
    if GoesToRepertoire(s.lib, l) {
      repertoire := Covered(s.lib, l);
    }
    assert RequestFits(s.lib, s.seen, s.requests[r]);
    AddSongLinks(s.lib, l, song, repertoire);
  }

  /** With its song found it looks whether the setlist has it, and puts it in if not. */
  lemma PutsIn(s: State, r: Id, before: seq<Step>, t: State, song: Id) returns (steps: seq<Step>, s': State)
    requires Comes(s, r, before, t, Checking(song)) && LiveSetlist(s.lib, s.requests[r].job.setlist)
    requires HasSong(s.lib, s.requests[r].job.setlist, song) ==> t.lib == s.lib
    ensures Leads(s, steps, s') && AreOf(steps, r)
    ensures Ends(s, s', r, song) && s'.lib.songs == t.lib.songs
  {
    var job := s.requests[r].job;
    var next := AfterChecking(t.lib, job, song);
    ComesOn(s, r, before, t, Checking(song), Check(r), next);
    steps, s' := before + [Check(r)], Apply(t, Check(r));
    if next == Linking(song) {
      var repertoire := LinksSong(s', r, song);
      Then(s, steps, s', Link(r, repertoire));
      steps, s' := steps + [Link(r, repertoire)], Apply(s', Link(r, repertoire));
    }
  }

  /** A request whose setlist may take the song comes to its end, and the song is in the
      setlist then. */
  lemma RequestEnds(s: State, r: Id, newId: Id) returns (steps: seq<Step>, s': State, song: Id)
    requires Inv(s) && At(s, r, Begun) && CanTake(s.lib, s.requests[r].job) && newId !in s.lib.songs
    ensures Leads(s, steps, s') && AreOf(steps, r)
    ensures IsTheSong(s, s', s.requests[r].job, song) && Ends(s, s', r, song)
  {
    var before, found, itsSong := FindsSong(s, r, newId);
    song := itsSong;
    NewIsNotThere(s, s.requests[r].job.setlist, newId);
    steps, s' := PutsIn(s, r, before, found, song);
  }
}

/**
 Accepting, rejecting and withdrawing suggestions, interleaved statement by
 statement with each other and with every request on setlists. `closers` holds
 how far each attempt to close a suggestion has come; one whose process died
 stays where it was for good.
 */
module SuggestionProtocol {
  import opened Options
  import opened SuggestionRows
  import Scope = SetlistScope
  import Lib = BandLibrary

  datatype Intent =
    | AcceptBy(user: Id, note: Option<string>)
    | AutoAccept(voter: Id)
    | RejectBy(user: Id, note: Option<string>)
    | WithdrawBy(user: Id)

  /** `was` is the row as the claim found it. */
  datatype Phase =
    | Asked
    | Loaded
    | Claimed(was: Row)
    | Working(was: Row, request: Id)
    | Undoing(was: Row)
    | Telling
    | Finished
    | Refused
    | Reopened
    | Stranded

  datatype Closer = Closer(row: Id, intent: Intent, phase: Phase)

  datatype Notice = Notice(row: Id, to: Id, status: Status)

  datatype World = World(scope: Scope.State, rows: map<Id, Row>, closers: map<Id, Closer>, notices: seq<Notice>)

  const INIT := World(Scope.INIT, map[], map[], [])

  datatype Step =
    | OnSetlists(step: Scope.Step)
    | Suggest(row: Id, fields: Row)
    | CastVote(row: Id, user: Id, value: int, members: set<Id>, threshold: Option<int>, closer: Id)
    | DropVote(row: Id, user: Id)
    | Ask(closer: Id, row: Id, intent: Intent)
    | Load(closer: Id)
    | Claim(closer: Id, now: Time)
    | StartWork(closer: Id, request: Id)
    | EndWork(closer: Id, ok: bool)
    | Undo(closer: Id, ok: bool, now: Time)
    | Tell(closer: Id, named: bool)

  function StatusOf(intent: Intent): Status {
    match intent
    case AcceptBy(_, _) => Accepted
    case AutoAccept(_) => Accepted
    case RejectBy(_, _) => Rejected
    case WithdrawBy(_) => Withdrawn
  }

  /** Nobody, for an automatic acceptance. */
  function ResolverOf(intent: Intent): Option<Id> {
    if intent.AutoAccept? then None else Some(intent.user)
  }

  function NoteOf(intent: Intent): Option<string> {
    if intent.AcceptBy? || intent.RejectBy? then intent.note else None
  }

  function ActorOf(intent: Intent): Id {
    if intent.AutoAccept? then intent.voter else intent.user
  }

  predicate At(w: World, c: Id) {
    c in w.closers && w.closers[c].row in w.rows
  }

  function RowOf(w: World, c: Id): Row
    requires At(w, c)
  {
    w.rows[w.closers[c].row]
  }

  function JobOf(row: Row, intent: Intent): Scope.Job {
    Scope.Accept(row.setlist, row.song, ActorOf(intent), row.band)
  }

  /** A request that ended well may still fail to be counted in; one that ended
      badly cannot succeed. */
  predicate MayEnd(scope: Scope.State, request: Id, ok: bool) {
    && request in scope.requests
    && (if ok then scope.requests[request].phase.Done?
        else scope.requests[request].phase.Done? || scope.requests[request].phase.Failed?)
  }

  ghost predicate Enabled(w: World, step: Step) {
    match step
    case OnSetlists(s) => Scope.Enabled(w.scope, s) && !(s.Begin? && s.job.Accept?)
    case Suggest(row, fields) => row !in w.rows && Clean(fields)
    case CastVote(row, _, _, _, _, closer) => row in w.rows && w.rows[row].status == Open && closer !in w.closers
    case DropVote(row, _) => row in w.rows && w.rows[row].status == Open
    case Ask(closer, row, intent) => closer !in w.closers && row in w.rows && !intent.AutoAccept?
    case Load(c) => At(w, c) && w.closers[c].phase == Asked
    case Claim(c, _) => At(w, c) && w.closers[c].phase == Loaded
    case StartWork(c, request) => At(w, c) && w.closers[c].phase.Claimed? && request !in w.scope.requests
    case EndWork(c, ok) => At(w, c) && w.closers[c].phase.Working? && MayEnd(w.scope, w.closers[c].phase.request, ok)
    case Undo(c, _, _) => At(w, c) && w.closers[c].phase.Undoing?
    case Tell(c, _) => At(w, c) && w.closers[c].phase == Telling
  }

  function ToPhase(w: World, c: Id, phase: Phase): World
    requires c in w.closers
  {
    w.(closers := w.closers[c := w.closers[c].(phase := phase)])
  }

  function WithRow(w: World, id: Id, row: Row): World {
    w.(rows := w.rows[id := row])
  }

  /** Accepting needs the suggestion open and its song alive; withdrawing is the
      suggester's own. */
  function AfterLoading(lib: Lib.Library, row: Row, intent: Intent): Phase {
    match intent
    case RejectBy(_, _) => Loaded
    case WithdrawBy(user) => if row.suggestedBy == Some(user) then Loaded else Refused
    case _ => if row.status == Open && Lib.LiveSong(lib, row.song) then Loaded else Refused
  }

  function AfterClaiming(was: Row, intent: Intent): Phase {
    match StatusOf(intent)
    case Accepted => Claimed(was)
    case Rejected => Telling
    case _ => Finished
  }

  /** Who is told: the suggester, unless they closed it themselves. */
  function NoticeFor(id: Id, row: Row, intent: Intent, named: bool): seq<Notice> {
    if named && row.suggestedBy.Some? && row.suggestedBy != ResolverOf(intent)
    then [Notice(id, row.suggestedBy.value, StatusOf(intent))] else []
  }

  function Claiming(w: World, c: Id, now: Time): World
    requires At(w, c)
  {
    var (id, row, intent) := (w.closers[c].row, RowOf(w, c), w.closers[c].intent);
    var resolved := Resolve(row, StatusOf(intent), ResolverOf(intent), NoteOf(intent), now);
    if resolved.None? then ToPhase(w, c, Refused)
    else WithRow(ToPhase(w, c, AfterClaiming(row, intent)), id, resolved.value)
  }

  function Voting(w: World, id: Id, user: Id, value: int, members: set<Id>, threshold: Option<int>, closer: Id): World
    requires id in w.rows && w.rows[id].status == Open
  {
    var row := Vote(w.rows[id], user, value).value;
    var voted := WithRow(w, id, row);
    if Reaches(row, members, threshold)
    then voted.(closers := voted.closers[closer := Closer(id, AutoAccept(user), Asked)])
    else voted
  }

  ghost function Apply(w: World, step: Step): World
    requires Enabled(w, step)
  {
    match step
    case OnSetlists(s) => w.(scope := Scope.Apply(w.scope, s))
    case Suggest(row, fields) => WithRow(w, row, fields)
    case CastVote(row, user, value, members, threshold, closer) => Voting(w, row, user, value, members, threshold, closer)
    case DropVote(row, user) => WithRow(w, row, RemoveVote(w.rows[row], user).value)
    case Ask(c, row, intent) => w.(closers := w.closers[c := Closer(row, intent, Asked)])
    case Load(c) => ToPhase(w, c, AfterLoading(w.scope.lib, RowOf(w, c), w.closers[c].intent))
    case Claim(c, now) => Claiming(w, c, now)
    case StartWork(c, request) =>
      var job := JobOf(RowOf(w, c), w.closers[c].intent);
      ToPhase(w, c, Working(w.closers[c].phase.was, request))
        .(scope := Scope.Apply(w.scope, Scope.Begin(request, job)))
    case EndWork(c, ok) => ToPhase(w, c, if ok then Telling else Undoing(w.closers[c].phase.was))
    case Undo(c, ok, now) =>
      if ok then WithRow(ToPhase(w, c, Reopened), w.closers[c].row, Reopen(RowOf(w, c), now)) else ToPhase(w, c, Stranded)
    case Tell(c, named) =>
      ToPhase(w, c, Finished)
        .(notices := w.notices + NoticeFor(w.closers[c].row, RowOf(w, c), w.closers[c].intent, named))
  }

  ghost predicate IsRun(run: seq<World>, steps: seq<Step>) {
    && |run| == |steps| + 1
    && run[0] == INIT
    && forall i :: 0 <= i < |steps| ==> Enabled(run[i], steps[i]) && run[i + 1] == Apply(run[i], steps[i])
  }
}

/**
 What every run leaves in a row besides its slots: the description, the tags, the restart record
 and the errors are those of the last event that set them since the row was last deleted.
 */
module RowHistory {
  import opened Options
  import opened Sequences
  import opened Text
  import opened FleetRows
  import opened FleetStore
  import opened Rollout
  import opened ConfigRollout
  import opened PackageRollout
  import RestartHistory

  function LastAbout(es: seq<Event>, id: string): Description {
    if es == [] then Description("", "", "") else
      match Last(es)
      case Heartbeat(i, Some(about), _) => if i == id then about else LastAbout(Front(es), id)
      case DeleteRow(i) => if i == id then Description("", "", "") else LastAbout(Front(es), id)
      case _ => LastAbout(Front(es), id)
  }

  function LastTags(es: seq<Event>, id: string): string {
    if es == [] then "" else
      match Last(es)
      case TagRow(i, csv) => if i == id then csv else LastTags(Front(es), id)
      case DeleteRow(i) => if i == id then "" else LastTags(Front(es), id)
      case _ => LastTags(Front(es), id)
  }

  /** The start times received since the row was last deleted. */
  function Starts(es: seq<Event>, id: string): seq<string> {
    if es == [] then [] else
      match Last(es)
      case Heartbeat(i, _, Some(s)) => if i == id && s != "" then Starts(Front(es), id) + [s] else Starts(Front(es), id)
      case DeleteRow(i) => if i == id then [] else Starts(Front(es), id)
      case _ => Starts(Front(es), id)
  }

  /** What an answer to a push leaves as the error: nothing once it succeeded. */
  function ErrorAfter(before: string, status: Status): string {
    match status
    case Applied => ""
    case Failed(message) => message
    case InProgress => before
  }

  function LastConfigError(w: World, es: seq<Event>, id: string): string
    requires Legal(w, es)
  {
    if es == [] then "" else
      var before := LastConfigError(w, Front(es), id);
      match Last(es)
      case ServerGetsConfigAck(i) =>
        if i == id then ErrorAfter(before, Run(w, Front(es)).agents[i].configAck.value) else before
      case DeleteRow(i) => if i == id then "" else before
      case _ => before
  }

  function LastPackageError(w: World, es: seq<Event>, id: string): string
    requires Legal(w, es)
  {
    if es == [] then "" else
      var before := LastPackageError(w, Front(es), id);
      match Last(es)
      case ServerGetsPackageAck(i) =>
        if i == id then ErrorAfter(before, Run(w, Front(es)).agents[i].packageAck.value) else before
      case DeleteRow(i) => if i == id then "" else before
      case _ => before
  }

  /** One step, for the columns the rollout itself does not depend on. */
  predicate ColumnsMove(w: World, e: Event, id: string)
    requires Enabled(w, e) && id in w.agents
  {
    var row, row' := RowOf(w.table, id), RowOf(Step(w, e).table, id);
    && row'.about == (if e == DeleteRow(id) then FRESH_ROW.about
                      else if e.Heartbeat? && e.id == id then e.about.GetOr(row.about) else row.about)
    && row'.tagsCsv == (if e == DeleteRow(id) then "" else if e.TagRow? && e.id == id then e.csv else row.tagsCsv)
    && row'.restarts == (if e == DeleteRow(id) then FRESH_ROW.restarts
                         else if e.Heartbeat? && e.id == id && e.startedAt.GetOr("") != ""
                         then RestartHistory.Report(row.restarts, e.startedAt.value) else row.restarts)
  }

  predicate ErrorsMove(w: World, e: Event, id: string)
    requires Enabled(w, e) && id in w.agents
  {
    var row, row' := RowOf(w.table, id), RowOf(Step(w, e).table, id);
    && row'.config.error == (if e == DeleteRow(id) then ""
                             else if e == ServerGetsConfigAck(id)
                             then ErrorAfter(row.config.error, w.agents[id].configAck.value) else row.config.error)
    && row'.package.error == (if e == DeleteRow(id) then ""
                              else if e == ServerGetsPackageAck(id)
                              then ErrorAfter(row.package.error, w.agents[id].packageAck.value) else row.package.error)
  }

  lemma ReceivedMoves(w: World, e: Event, id: string)
    requires Enabled(w, e) && id in w.agents && Received(w, e).Some?
    ensures ColumnsMove(w, e, id) && ErrorsMove(w, e, id)
  {
    hide Step, RowOf, RestartHistory.Report;
    ReceivedRow(w, e, id);
  }

  lemma OtherColumnsMove(w: World, e: Event, id: string)
    requires Enabled(w, e) && id in w.agents && Received(w, e).None?
    ensures ColumnsMove(w, e, id)
  {
    hide RestartHistory.Report, HandleMessage, Tick, TakeConfig, TakePackage, RepoAfter;
  }

  lemma OtherErrorsMove(w: World, e: Event, id: string)
    requires Enabled(w, e) && id in w.agents && Received(w, e).None?
    ensures ErrorsMove(w, e, id)
  {
    hide ErrorAfter, Step, Received;
    if !ConcernsConfig(e, id) { ConfigFrame(w, e, id); }
    if !ConcernsPackages(e, id) { PackageFrame(w, e, id); }
    if ConcernsConfig(e, id) || ConcernsPackages(e, id) { OtherSlotsMove(w, e, id); }
  }

  /** The pushes and rollbacks of this agent leave its errors alone. */
  lemma OtherSlotsMove(w: World, e: Event, id: string)
    requires Enabled(w, e) && id in w.agents && Received(w, e).None?
    requires ConcernsConfig(e, id) || ConcernsPackages(e, id)
    ensures ErrorsMove(w, e, id)
  {
    hide HandleMessage, Tick, TakeConfig, TakePackage, RepoAfter, ErrorAfter;
  }

  lemma ColumnsStep(w: World, e: Event, id: string)
    requires Enabled(w, e) && id in w.agents
    ensures ColumnsMove(w, e, id) && ErrorsMove(w, e, id)
  {
    hide ColumnsMove, ErrorsMove, Step;
    if Received(w, e).Some? {
      ReceivedMoves(w, e, id);
    } else {
      OtherColumnsMove(w, e, id);
      OtherErrorsMove(w, e, id);
    }
  }

  lemma {:induction false} ColumnsAreHistory(w: World, es: seq<Event>, id: string)
    requires Initial(w) && Legal(w, es) && id in w.agents
    ensures var row := RowOf(Run(w, es).table, id);
            && row.about == LastAbout(es, id) && row.tagsCsv == LastTags(es, id)
            && row.restarts == RestartHistory.AfterReports(Starts(es, id))
  {
    hide Step, ErrorsMove, RestartHistory.Report, RestartHistory.AfterReports;
    NoReports();
    if es != [] {
      ColumnsAreHistory(w, Front(es), id);
      ColumnsStep(Run(w, Front(es)), Last(es), id);
      if Last(es).Heartbeat? && Last(es).startedAt.Some? {
        OneMoreReport(Starts(Front(es), id), Last(es).startedAt.value);
      }
    }
  }

  lemma {:induction false} ErrorsAreHistory(w: World, es: seq<Event>, id: string)
    requires Initial(w) && Legal(w, es) && id in w.agents
    ensures var row := RowOf(Run(w, es).table, id);
            row.config.error == LastConfigError(w, es, id) && row.package.error == LastPackageError(w, es, id)
  {
    hide Step, ColumnsMove, ErrorAfter;
    if es != [] {
      ErrorsAreHistory(w, Front(es), id);
      ColumnsStep(Run(w, Front(es)), Last(es), id);
    }
  }

  /** All of them, in every reachable state. */
  lemma RowIsHistory(w: World, es: seq<Event>, id: string)
    requires Initial(w) && Legal(w, es) && id in w.agents
    ensures var row := RowOf(Run(w, es).table, id);
            && row.about == LastAbout(es, id) && row.tagsCsv == LastTags(es, id)
            && row.restarts == RestartHistory.AfterReports(Starts(es, id))
            && row.config.error == LastConfigError(w, es, id) && row.package.error == LastPackageError(w, es, id)
  {
    ColumnsAreHistory(w, es, id);
    ErrorsAreHistory(w, es, id);
  }

  lemma NoReports()
    ensures RestartHistory.AfterReports([]) == FRESH_ROW.restarts
  {
  }

  lemma OneMoreReport(reports: seq<string>, s: string)
    ensures RestartHistory.AfterReports(reports + [s]) == RestartHistory.Report(RestartHistory.AfterReports(reports), s)
  {
    assert (reports + [s])[..|reports|] == reports;
  }

  /** So in every reachable state the listing shows, for each agent, the last ten changes of the
      start times it reported and the tags last set. */
  lemma ListingShowsHistory(w: World, es: seq<Event>, id: string, tags: seq<string>, clock: Clock)
    requires Initial(w) && Legal(w, es) && id in w.agents
    requires forall s :: s in Starts(es, id) ==> RestartHistory.Storable(s)
    requires LastTags(es, id) == Join(tags, ",") && forall s :: s in tags ==> s != "" && Plain(s, ',')
    ensures var view := View(id, RowOf(Run(w, es).table, id), clock);
            view.tags == tags && view.restartHistory == LastN(RestartHistory.Changes(Starts(es, id)), 10)
  {
    hide ParseList, Join;
    RowIsHistory(w, es, id);
    RestartHistory.HistoryIsLastChanges(Starts(es, id));
    ParseJoined(tags);
  }
}

/**
 Config drift: what the derived flag says about the agent's actual file, once the
 file's last change has been reported and recorded.
 */
module ConfigDrift {
  import opened Options
  import opened FleetRows
  import opened Rollout
  import opened ConfigRollout

  /** The agent's row was deleted and no report of its has been recorded since. */
  predicate RowLost(es: seq<Event>, id: string) {
    es != [] && LostAfter(RowLost(Front(es), id), Last(es), id)
  }

  function LostAfter(before: bool, e: Event, id: string): bool {
    match e
    case DeleteRow(i) => i == id || before
    case ServerGetsReport(i) => i != id && before
    case _ => before
  }

  /** The content the agent reported last: at a tick that found news, or at a start. */
  function LastSent(w: World, es: seq<Event>, id: string): Option<Bytes>
    requires Legal(w, es) && id in w.agents
  {
    if es == [] then None else SentAfter(LastSent(w, Front(es), id), Run(w, Front(es)).agents[id], Last(es), id)
  }

  function SentAfter(before: Option<Bytes>, a: AgentState, e: Event, id: string): Option<Bytes> {
    if e == Restart(id) || (e == ReportTick(id) && Sha256(a.live) != a.lastReported) then Some(a.live) else before
  }

  /** The live file is what was last reported, the report has been recorded, and the row
      is still the one it was recorded in. */
  predicate Fresh(w: World, es: seq<Event>, id: string)
    requires Legal(w, es) && id in w.agents
  {
    var a := Run(w, es).agents[id];
    LastSent(w, es, id) == Some(a.live) && a.reports == [] && !RowLost(es, id)
  }

  /** What was last reported is still on the way or recorded, and a remembered hash is its. */
  predicate ReportInv(row: Row, a: AgentState, sent: Option<Bytes>, lost: bool) {
    && (a.lastReported != NoDigest ==> sent.Some? && a.lastReported == Sha256(sent.value))
    && (sent.Some? ==>
          if a.reports == [] then !lost ==> row.effectiveHash == Sha256(sent.value)
          else a.reports[|a.reports| - 1] == sent.value)
  }

  predicate ConcernsReports(e: Event, id: string) {
    && (e.ReportTick? || e.Restart? || e.ServerGetsReport? || e.DeleteRow?)
    && e.id == id
  }

  lemma ReportFrame(w: World, e: Event, id: string)
    requires Enabled(w, e) && id in w.agents && !ConcernsReports(e, id)
    ensures RowOf(Step(w, e).table, id).effectiveHash == RowOf(w.table, id).effectiveHash
    ensures var a, b := w.agents[id], Step(w, e).agents[id];
            b.lastReported == a.lastReported && b.reports == a.reports
  {
    if Received(w, e).Some? { ReceivedRow(w, e, id); }
  }

  lemma ReportStep(w: World, e: Event, id: string, sent: Option<Bytes>, lost: bool)
    requires Enabled(w, e) && id in w.agents
    requires ReportInv(RowOf(w.table, id), w.agents[id], sent, lost)
    ensures ReportInv(RowOf(Step(w, e).table, id), Step(w, e).agents[id],
                      SentAfter(sent, w.agents[id], e, id), LostAfter(lost, e, id))
  {
    if !ConcernsReports(e, id) {
      ReportFrame(w, e, id);
    } else if e.ServerGetsReport? {
      ReceivedRow(w, e, id);
    }
  }

  lemma {:induction false} ReportInvariant(w: World, es: seq<Event>, id: string)
    requires Initial(w) && Legal(w, es) && id in w.agents
    ensures ReportInv(RowOf(Run(w, es).table, id), Run(w, es).agents[id], LastSent(w, es, id), RowLost(es, id))
  {
    if es != [] {
      ReportInvariant(w, Front(es), id);
      ReportStep(Run(w, Front(es)), Last(es), id, LastSent(w, Front(es), id), RowLost(Front(es), id));
    }
  }

  /** The content of the last report received since the row was last deleted. */
  function LastReceived(w: World, es: seq<Event>, id: string): Option<Bytes>
    requires Legal(w, es) && id in w.agents
  {
    if es == [] then None else
      match Last(es)
      case DeleteRow(i) => if i == id then None else LastReceived(w, Front(es), id)
      case ServerGetsReport(i) =>
        if i == id then Some(Run(w, Front(es)).agents[id].reports[0]) else LastReceived(w, Front(es), id)
      case _ => LastReceived(w, Front(es), id)
  }

  lemma {:induction false} HashIsLastReceived(w: World, es: seq<Event>, id: string)
    requires Initial(w) && Legal(w, es) && id in w.agents
    ensures RowOf(Run(w, es).table, id).effectiveHash ==
            match LastReceived(w, es, id) case Some(b) => Sha256(b) case None => NoDigest
  {
    hide Step;
    if es != [] {
      var before, e := Run(w, Front(es)), Last(es);
      HashIsLastReceived(w, Front(es), id);
      if !ConcernsReports(e, id) {
        ReportFrame(before, e, id);
      } else {
        HashStep(before, e, id);
      }
    }
  }

  lemma HashStep(w: World, e: Event, id: string)
    requires Enabled(w, e) && id in w.agents && ConcernsReports(e, id)
    ensures RowOf(Step(w, e).table, id).effectiveHash ==
            if e.DeleteRow? then NoDigest else if e.ServerGetsReport? then Sha256(w.agents[id].reports[0])
              else RowOf(w.table, id).effectiveHash
  {
    if e.ServerGetsReport? { ReceivedRow(w, e, id); }
  }

  /** At every point of every run: the flag is raised exactly if the agent has reported, it has a
      last-known-good config, and the last report received is neither that nor the pending one. */
  lemma FlagShowsLastReport(w: World, es: seq<Event>, id: string)
    requires Initial(w) && Legal(w, es) && id in w.agents
    ensures var row, reported := RowOf(Run(w, es).table, id), LastReceived(w, es, id);
            ConfigDrifted(row) <==>
              && reported.Some? && row.config.lastGood != NO_CONFIG && reported.value != row.config.lastGood.body
              && (row.config.pending == NO_CONFIG || reported.value != row.config.pending.body)
  {
    hide LastReceived, Run, Legal;
    HashIsLastReceived(w, es, id);
    StoredHashesMatch(w, es, id);
  }

  /** At a fresh point the flag is exact: it is raised when, and only when, there is a
      last-known-good config and the file is neither that nor the pending one. */
  lemma DriftIsExact(w: World, es: seq<Event>, id: string)
    requires Initial(w) && Legal(w, es) && id in w.agents
    requires Fresh(w, es, id)
    ensures var row, live := RowOf(Run(w, es).table, id), Run(w, es).agents[id].live;
            ConfigDrifted(row) <==>
              && row.config.lastGood != NO_CONFIG && live != row.config.lastGood.body
              && (row.config.pending == NO_CONFIG || live != row.config.pending.body)
  {
    ReportInvariant(w, es, id);
    StoredHashesMatch(w, es, id);
  }

  /** No false alarm: at a fresh point the flag is down unless somebody edited the file
      by hand after the last push the agent accepted. */
  lemma NoDriftWithoutHandEdit(w: World, es: seq<Event>, id: string)
    requires Initial(w) && Legal(w, es) && id in w.agents
    requires Fresh(w, es, id) && !EditedSinceAccept(es, id)
    ensures !ConfigDrifted(RowOf(Run(w, es).table, id))
  {
    DriftIsExact(w, es, id);
    ConfigInvariant(w, es, id);
  }

  // --- What makes the picture fresh

  function Deliveries(id: string, n: nat): seq<Event> {
    if n == 0 then [] else Deliveries(id, n - 1) + [ServerGetsReport(id)]
  }

  lemma DeliveryStep(w: World, id: string)
    requires Enabled(w, ServerGetsReport(id))
    ensures Step(w, ServerGetsReport(id)).agents[id] == w.agents[id].(reports := w.agents[id].reports[1..])
  {
  }

  lemma {:induction false} DeliverAll(w: World, es: seq<Event>, id: string, n: nat)
    requires Legal(w, es) && id in w.agents
    requires n <= |Run(w, es).agents[id].reports|
    ensures Legal(w, es + Deliveries(id, n))
    ensures var a, b := Run(w, es).agents[id], Run(w, es + Deliveries(id, n)).agents[id];
            b == a.(reports := a.reports[n..])
    ensures RowLost(es + Deliveries(id, n), id) <==> n == 0 && RowLost(es, id)
    ensures LastSent(w, es + Deliveries(id, n), id) == LastSent(w, es, id)
  {
    hide Step;
    if n == 0 {
      assert es + Deliveries(id, 0) == es;
    } else {
      var most := es + Deliveries(id, n - 1);
      DeliverAll(w, es, id, n - 1);
      assert es + Deliveries(id, n) == most + [ServerGetsReport(id)];
      RunSnoc(w, most, ServerGetsReport(id));
      DeliveryStep(Run(w, most), id);
      var reports := Run(w, es).agents[id].reports;
      assert reports[n - 1..][1..] == reports[n..];
    }
  }

  lemma ReportingSteps(w: World, id: string)
    requires id in w.agents
    ensures Step(w, ReportTick(id)).agents[id] == Tick(w.agents[id])
    ensures var a := w.agents[id];
            Step(w, Restart(id)).agents[id] == a.(lastReported := NoDigest, reports := a.reports + [a.live])
  {
  }

  lemma DeliveredIsFreshIff(w: World, es: seq<Event>, id: string)
    requires Legal(w, es) && id in w.agents
    ensures var a := Run(w, es).agents[id];
            var run := es + Deliveries(id, |a.reports|);
            Legal(w, run) &&
            (Fresh(w, run, id) <==> LastSent(w, es, id) == Some(a.live) && (a.reports != [] || !RowLost(es, id)))
  {
    hide RowLost, Legal, Run, LastSent;
    DeliverAll(w, es, id, |Run(w, es).agents[id].reports|);
  }

  /** After a report tick whose reports are all received, the agent's picture is fresh,
      unless its row was deleted after the current content had been recorded: the agent
      then believes the server already knows, and stays silent. */
  lemma TickMakesFreshIff(w: World, es: seq<Event>, id: string)
    requires Initial(w) && Legal(w, es) && id in w.agents
    ensures var ticked := es + [ReportTick(id)];
            && Legal(w, ticked)
            && var run := ticked + Deliveries(id, |Run(w, ticked).agents[id].reports|);
            && Legal(w, run)
            && var a := Run(w, es).agents[id];
            && (Fresh(w, run, id) <==> !(RowLost(es, id) && a.reports == [] && a.lastReported == Sha256(a.live)))
  {
    hide Step, Fresh, Legal, Run, Deliveries;
    var ticked := es + [ReportTick(id)];
    RunSnoc(w, es, ReportTick(id));
    ReportingSteps(Run(w, es), id);
    ReportInvariant(w, es, id);
    DeliveredIsFreshIff(w, ticked, id);
  }

  /** After a start whose reports are all received it is fresh without exception; the agent
      restarts after every push it accepts. */
  lemma RestartMakesFresh(w: World, es: seq<Event>, id: string)
    requires Initial(w) && Legal(w, es) && id in w.agents
    ensures var started := es + [Restart(id)];
            && Legal(w, started)
            && var run := started + Deliveries(id, |Run(w, started).agents[id].reports|);
            && Legal(w, run) && Fresh(w, run, id)
  {
    hide Step, Fresh, Legal, Run, Deliveries;
    var started := es + [Restart(id)];
    RunSnoc(w, es, Restart(id));
    ReportingSteps(Run(w, es), id);
    DeliveredIsFreshIff(w, started, id);
  }
}

/**
 The fleet server's inventory store (fleet/sgcia-fleet-server/store.go). The two SQL
 tables are maps held in fields; each method does what its statement does and is tied
 to the function of FleetRows the whole-run results are about.
 */
module FleetStore {
  import opened Options
  import opened FleetRows
  import opened StringOrder
  import opened Text
  import RestartHistory

  /** How stored time strings parse, and what time it is. */
  datatype Clock = Clock(parse: string -> Option<int>, now: int) {
    function Cutoff(): int {
      now - RestartHistory.FLAP_WINDOW
    }
  }

  /** What readers of the store see of one agent: the row and the derived fields. */
  datatype AgentView = AgentView(
    id: string,
    row: Row,
    tags: seq<string>,
    restartHistory: seq<string>,
    restartCountRecent: nat,
    flapping: bool,
    configDrifted: bool)

  function View(id: string, row: Row, clock: Clock): AgentView {
    var history := ParseList(row.restarts.historyCsv);
    AgentView(id, row, ParseList(row.tagsCsv), history,
              RestartHistory.RecentCount(history, clock.parse, clock.Cutoff()),
              RestartHistory.Flapping(history, clock.parse, clock.Cutoff()),
              ConfigDrifted(row))
  }

  /** Less than ten minutes ago, in nanoseconds. */
  predicate JustStarted(startedAt: string, clock: Clock) {
    clock.parse(startedAt).Some? && clock.now - clock.parse(startedAt).value < 10 * 60 * 1_000_000_000
  }

  /** What the derived fields say: the restarts of the last ten minutes, and whether there were
      three of them. */
  lemma ViewCountsRestarts(id: string, row: Row, clock: Clock)
    ensures var view := View(id, row, clock);
            && view.restartCountRecent ==
               |set i | 0 <= i < |view.restartHistory| && JustStarted(view.restartHistory[i], clock)|
            && (view.flapping <==> view.restartCountRecent >= 3)
  {
    hide ParseList;
    var history := View(id, row, clock).restartHistory;
    RestartHistory.RecentCountCounts(history, clock.parse, clock.Cutoff());
    assert (set i | 0 <= i < |history| && JustStarted(history[i], clock)) ==
           (set i | 0 <= i < |history| && RestartHistory.IsRecent(history[i], clock.parse, clock.Cutoff()));
  }

  // --- ORDER BY hostname, id

  predicate ListedBefore(t: Table, a: string, b: string)
    requires a in t && b in t
  {
    if t[a].about.hostname == t[b].about.hostname then StringLe(a, b)
      else StringLe(t[a].about.hostname, t[b].about.hostname)
  }

  lemma ListedBeforeOrders(t: Table, a: string, b: string, c: string)
    requires a in t && b in t && c in t
    ensures ListedBefore(t, a, b) || ListedBefore(t, b, a)
    ensures ListedBefore(t, a, b) && ListedBefore(t, b, c) ==> ListedBefore(t, a, c)
  {
    StringLeTotal(a, b);
    StringLeTotal(t[a].about.hostname, t[b].about.hostname);
    StringLeTotal(t[b].about.hostname, t[c].about.hostname);
    if ListedBefore(t, a, b) && ListedBefore(t, b, c) {
      StringLeTransitive(t[a].about.hostname, t[b].about.hostname, t[c].about.hostname);
      if t[a].about.hostname == t[b].about.hostname == t[c].about.hostname { StringLeTransitive(a, b, c); }
    }
  }

  lemma {:induction false} FirstListed(t: Table, ids: set<string>) returns (first: string)
    requires ids != {} && ids <= t.Keys
    ensures first in ids && forall b :: b in ids ==> ListedBefore(t, first, b)
    decreases |ids|
  {
    var a :| a in ids;
    if ids == {a} {
      first := a;
      ListedBeforeOrders(t, a, a, a);
    } else {
      var rest := FirstListed(t, ids - {a});
      ListedBeforeOrders(t, a, rest, a);
      ListedBeforeOrders(t, a, a, a);
      first := if ListedBefore(t, a, rest) then a else rest;
      forall b | b in ids ensures ListedBefore(t, first, b) {
        if b != a { ListedBeforeOrders(t, first, rest, b); }
      }
    }
  }

  /** The ids of all rows, each once, in listing order. */
  ghost predicate IsListing(t: Table, ids: seq<string>) {
    && (forall id :: id in ids <==> id in t)
    && (forall i, j :: 0 <= i < j < |ids| ==> ids[i] != ids[j])
    && (forall i, j :: 0 <= i < j < |ids| && ids[i] in t && ids[j] in t ==> ListedBefore(t, ids[i], ids[j]))
  }

  class Store {
    var agents: Table
    var packages: map<(string, string), Digest>

    constructor ()
      ensures agents == map[] && packages == map[]
    {
      agents := map[];
      packages := map[];
    }

    method DeleteAgent(id: string) returns (deleted: bool)
      modifies this`agents
      ensures agents == Delete(old(agents), id)
      ensures deleted <==> id in old(agents)
    {
      deleted := id in agents;
      agents := map i | i in agents && i != id :: agents[i];
    }

    method UpsertAgentDescription(id: string, hostname: string, serviceVersion: string, localUiAddr: string)
      modifies this`agents
      ensures agents == Describe(old(agents), id, Description(hostname, serviceVersion, localUiAddr))
    {
      if id in agents {
        agents := agents[id := agents[id].(about := Description(hostname, serviceVersion, localUiAddr))];
      } else {
        agents := agents[id := FRESH_ROW.(about := Description(hostname, serviceVersion, localUiAddr))];
      }
    }

    method TouchLastSeen(id: string)
      modifies this`agents
      ensures agents == Touch(old(agents), id)
    {
      if id !in agents {
        agents := agents[id := FRESH_ROW];
      }
    }

    method SetTags(id: string, tags: seq<string>)
      modifies this`agents
      ensures agents == FleetRows.SetTags(old(agents), id, Join(tags, ","))
    {
      var csv := Join(tags, ",");
      if id in agents {
        agents := agents[id := agents[id].(tagsCsv := csv)];
      } else {
        agents := agents[id := FRESH_ROW.(tagsCsv := csv)];
      }
    }

    method SetPendingConfig(id: string, configYaml: Bytes, hash: Digest)
      modifies this`agents
      ensures agents == FleetRows.SetPendingConfig(old(agents), id, ConfigRef(configYaml, hash))
    {
      var row := if id in agents then agents[id] else FRESH_ROW;
      agents := agents[id := row.(config := row.config.(pending := ConfigRef(configYaml, hash)))];
    }

    method PromoteToLastKnownGood(id: string)
      modifies this`agents
      ensures agents == PromoteConfig(old(agents), id)
    {
      if id in agents {
        var c := agents[id].config;
        agents := agents[id := agents[id].(config := Slots(NO_CONFIG, c.pending, ""))];
      }
    }

    method RecordConfigFailure(id: string, message: string)
      modifies this`agents
      ensures agents == FailConfig(old(agents), id, message)
    {
      if id in agents {
        var c := agents[id].config;
        agents := agents[id := agents[id].(config := c.(pending := NO_CONFIG, error := message))];
      }
    }

    method RecordPackage(name: string, version: string, hash: Digest)
      modifies this`packages
      ensures packages == old(packages)[(name, version) := hash]
    {
      packages := packages[(name, version) := hash];
    }

    method GetPackage(name: string, version: string) returns (hash: Option<Digest>)
      ensures hash == if (name, version) in packages then Some(packages[(name, version)]) else None
    {
      hash := None;
      if (name, version) in packages {
        hash := Some(packages[(name, version)]);
      }
    }

    method SetPendingPackage(id: string, r: PackageRef)
      modifies this`agents
      ensures agents == FleetRows.SetPendingPackage(old(agents), id, r)
    {
      var row := if id in agents then agents[id] else FRESH_ROW;
      agents := agents[id := row.(package := row.package.(pending := r))];
    }

    method PromotePackageToLastKnownGood(id: string)
      modifies this`agents
      ensures agents == PromotePackage(old(agents), id)
    {
      if id in agents {
        var p := agents[id].package;
        agents := agents[id := agents[id].(package := Slots(NO_PACKAGE, p.pending, ""))];
      }
    }

    method RecordPackageFailure(id: string, message: string)
      modifies this`agents
      ensures agents == FailPackage(old(agents), id, message)
    {
      if id in agents {
        var p := agents[id].package;
        agents := agents[id := agents[id].(package := p.(pending := NO_PACKAGE, error := message))];
      }
    }

    method RecordStartedAt(id: string, startedAt: string)
      modifies this`agents
      ensures agents == FleetRows.RecordStartedAt(old(agents), id, startedAt)
    {
      var row := if id in agents then agents[id] else FRESH_ROW;
      if row.restarts.lastStartedAt == startedAt {
        return;
      }
      var newHistoryCsv := row.restarts.historyCsv;
      if row.restarts.lastStartedAt != "" {
        var history := ParseStored(newHistoryCsv);
        history := history + [startedAt];
        if |history| > RestartHistory.MAX_RESTART_HISTORY {
          history := history[|history| - RestartHistory.MAX_RESTART_HISTORY..];
        }
        newHistoryCsv := Join(history, ",");
      }
      agents := agents[id := row.(restarts := RestartHistory.Record(startedAt, newHistoryCsv))];
    }

    method SetEffectiveConfigHash(id: string, hash: Digest)
      modifies this`agents
      ensures agents == SetEffectiveHash(old(agents), id, hash)
    {
      if id in agents {
        agents := agents[id := agents[id].(effectiveHash := hash)];
      } else {
        agents := agents[id := FRESH_ROW.(effectiveHash := hash)];
      }
    }

    /** One row as readers see it: the lists parsed, the flags derived. */
    method Scan(id: string, row: Row, clock: Clock) returns (view: AgentView)
      ensures view == View(id, row, clock)
    {
      hide RestartHistory.RecentCount, ParseList;
      var tags := ParseStored(row.tagsCsv);
      var history := ParseStored(row.restarts.historyCsv);
      var recent := CountRecent(history, clock.parse, clock.now - RestartHistory.FLAP_WINDOW);
      var drifted := && row.config.lastGood.hash != NoDigest
                     && row.effectiveHash != NoDigest
                     && row.effectiveHash != row.config.lastGood.hash
                     && row.effectiveHash != row.config.pending.hash;
      view := AgentView(id, row, tags, history, recent, recent >= RestartHistory.FLAP_THRESHOLD, drifted);
    }

    method GetAgent(id: string, clock: Clock) returns (view: Option<AgentView>)
      ensures view == if id in agents then Some(View(id, agents[id], clock)) else None
    {
      view := None;
      if id in agents {
        var v := Scan(id, agents[id], clock);
        view := Some(v);
      }
    }

    method ListAgents(clock: Clock) returns (out: seq<AgentView>)
      ensures IsListing(agents, Ids(out))
      ensures forall v :: v in out ==> v.id in agents && v == View(v.id, agents[v.id], clock)
      ensures forall i, j :: 0 <= i < j < |out| ==> HostnameThenId(out[i], out[j])
    {
      var ids := ListIds(agents);
      out := [];
      for i := 0 to |ids|
        invariant Ids(out) == ids[..i]
        invariant forall v :: v in out ==> v.id in agents && v == View(v.id, agents[v.id], clock)
      {
        assert ids[i] in ids;
        var v := Scan(ids[i], agents[ids[i]], clock);
        out := out + [v];
      }
      assert ids[..|ids|] == ids;
      ListedByHostname(agents, out, clock);
    }
  }

  predicate HostnameThenId(a: AgentView, b: AgentView) {
    var first, second := a.row.about.hostname, b.row.about.hostname;
    if first == second then StringLe(a.id, b.id) else StringLe(first, second)
  }

  lemma ListedByHostname(t: Table, views: seq<AgentView>, clock: Clock)
    requires IsListing(t, Ids(views))
    requires forall v :: v in views ==> v.id in t && v == View(v.id, t[v.id], clock)
    ensures forall i, j :: 0 <= i < j < |views| ==> HostnameThenId(views[i], views[j])
  {
    hide StringLe, ParseList;
    forall i, j | 0 <= i < j < |views| ensures HostnameThenId(views[i], views[j]) {
      assert views[i] in views && views[j] in views;
      assert ListedBefore(t, Ids(views)[i], Ids(views)[j]);
    }
  }

  function Ids(views: seq<AgentView>): seq<string> {
    seq(|views|, i requires 0 <= i < |views| => views[i].id)
  }

  /** The query's ordering: repeatedly the first of the ids not listed yet. */
  method ListIds(t: Table) returns (ids: seq<string>)
    ensures IsListing(t, ids)
  {
    ids := [];
    var todo := t.Keys;
    while todo != {}
      invariant todo <= t.Keys
      invariant forall id :: id in ids <==> id in t && id !in todo
      invariant forall i, j :: 0 <= i < j < |ids| ==> ids[i] != ids[j]
      invariant forall i, j :: 0 <= i < j < |ids| ==> ListedBefore(t, ids[i], ids[j])
      invariant forall a, b :: a in ids && b in todo ==> ListedBefore(t, a, b)
      decreases |todo|
    {
      ghost var first := FirstListed(t, todo);
      var id :| id in todo && forall b :: b in todo ==> ListedBefore(t, id, b);
      ids := ids + [id];
      todo := todo - {id};
    }
  }

  /** parseTags and parseRestartHistory: split on commas, drop the empty parts. */
  method ParseStored(csv: string) returns (out: seq<string>)
    ensures out == ParseList(csv)
  {
    out := [];
    if csv == "" {
      assert NonEmpty([""]) == NonEmpty([""][..0]);
      return;
    }
    var parts := Split(csv, ',');
    for i := 0 to |parts|
      invariant out == NonEmpty(parts[..i])
    {
      assert parts[..i + 1][..i] == parts[..i];
      if parts[i] != "" {
        out := out + [parts[i]];
      }
    }
    assert parts[..|parts|] == parts;
  }

  /** scanAgents' count of the restarts inside the flap window. */
  method CountRecent(history: seq<string>, parse: string -> Option<int>, cutoff: int) returns (recent: nat)
    ensures recent == RestartHistory.RecentCount(history, parse, cutoff)
  {
    recent := 0;
    for i := 0 to |history|
      invariant recent == RestartHistory.RecentCount(history[..i], parse, cutoff)
    {
      assert history[..i + 1][..i] == history[..i];
      var t := parse(history[i]);
      if t.Some? && t.value > cutoff {
        recent := recent + 1;
      }
    }
    assert history[..|history|] == history;
  }

  /** After tags have been set, every reader sees exactly those tags: setting replaces
      the whole list and storing it loses nothing. Nothing else changes, in this row or another. */
  lemma TagsReadBack(t: Table, id: string, tags: seq<string>, clock: Clock)
    requires forall s :: s in tags ==> s != "" && Plain(s, ',')
    ensures var after := FleetRows.SetTags(t, id, Join(tags, ","));
            && id in after && View(id, after[id], clock).tags == tags
            && (forall other :: other != id ==>
                  (other in after <==> other in t) && RowOf(after, other) == RowOf(t, other))
            && var row, row' := RowOf(t, id), after[id];
            && row'.about == row.about && row'.config == row.config && row'.package == row.package
            && row'.restarts == row.restarts && row'.effectiveHash == row.effectiveHash
  {
    ParseJoined(tags);
  }
}

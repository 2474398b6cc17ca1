/**
 The rollout protocol between the fleet server and its agents, as a step system:
 the server's table and package store, every agent's live files, and the messages
 between them. The server half of each step is the function of FleetRows that the
 corresponding store and handler methods are proved to compute; the agent half is
 the outcome proved for its apply methods in AgentHost.

 A run is a list of events. What happened in a run (was the file edited by hand
 since the last accepted push?) is a function of that list, never extra state.
 */
module Rollout {
  import opened Options
  import opened FleetRows
  import RestartHistory

  /** One agent and the messages travelling to and from it. */
  datatype AgentState = AgentState(
    live: Bytes,                       // the live config file
    binary: Bytes,                     // the live executable
    configOffer: Option<ConfigRef>,
    configAck: Option<Status>,
    packageOffer: Option<PackageRef>,
    packageAck: Option<Status>,
    lastReported: Digest,              // lastEffectiveConfigHash
    reports: seq<Bytes>)               // EffectiveConfig bodies not yet received

  type Key = (string, string)

  /** The packages directory, the packages table, the uploads renamed into the directory
      whose row is not written yet, and those still coming in with what has arrived. */
  datatype Repo = Repo(files: map<Key, Bytes>, hashes: map<Key, Digest>, unrecorded: set<(Key, Bytes)>,
                       uploading: map<Key, Bytes>)

  const NO_PACKAGES := Repo(map[], map[], {}, map[])

  datatype World = World(table: Table, repo: Repo, agents: map<string, AgentState>)

  datatype Event =
    | PushConfig(id: string, body: Bytes, delivered: bool)
    | RollbackConfig(id: string, delivered: bool)
    | ConfigOfferLost(id: string)
    | AgentTakesConfig(id: string, valid: bool)
    | ServerGetsConfigAck(id: string)
    | HandEdit(id: string, body: Bytes)
    | ReportTick(id: string)
    | Restart(id: string)
    | ServerGetsReport(id: string)
    | Heartbeat(id: string, about: Option<Description>, startedAt: Option<string>)
    | TagRow(id: string, csv: string)
    | DeleteRow(id: string)
    | UploadStarted(key: Key)
    | UploadReceived(key: Key, bytes: Bytes)      // everything that has arrived so far
    | UploadBroken(key: Key, cleaned: bool)
    | UploadRenamed(key: Key, bytes: Bytes)
    | UploadRecorded(key: Key, bytes: Bytes)
    | PushPackage(id: string, key: Key, delivered: bool)
    | RollbackPackage(id: string, delivered: bool)
    | PackageOfferLost(id: string)
    | AgentTakesPackage(id: string, runs: bool)
    | ServerGetsPackageAck(id: string)

  // --- Uploads

  /** An upload is received under this name, in the directory the versions are served from. */
  function TempOf(key: Key): Key {
    (key.0, key.1 + ".tmp")
  }

  /** The two uploads write to a common path. */
  predicate SharePath(a: Key, b: Key) {
    a == b || TempOf(a) == b || a == TempOf(b)
  }

  predicate CanStart(repo: Repo, key: Key) {
    key.0 != "" && key.1 != "" && forall k :: k in repo.uploading ==> !SharePath(k, key)
  }

  predicate IsUpload(e: Event) {
    e.UploadStarted? || e.UploadReceived? || e.UploadBroken? || e.UploadRenamed? || e.UploadRecorded?
  }

  predicate UploadEnabled(repo: Repo, e: Event)
    requires IsUpload(e)
  {
    match e
    case UploadStarted(key) => CanStart(repo, key)
    case UploadReceived(key, bytes) => key in repo.uploading && repo.uploading[key] <= bytes
    case UploadBroken(key, _) => key in repo.uploading
    case UploadRenamed(key, bytes) => key in repo.uploading && repo.uploading[key] == bytes
    case UploadRecorded(key, bytes) => (key, bytes) in repo.unrecorded
  }

  /** Truncate the temporary file, write to it, remove it on failure or rename it into
      place, then record the hash of what was received. */
  function RepoAfter(repo: Repo, e: Event): Repo
    requires IsUpload(e)
  {
    match e
    case UploadStarted(key) =>
      repo.(files := repo.files[TempOf(key) := ""], uploading := repo.uploading[key := ""])
    case UploadReceived(key, bytes) =>
      repo.(files := repo.files[TempOf(key) := bytes], uploading := repo.uploading[key := bytes])
    case UploadBroken(key, cleaned) =>
      repo.(files := if cleaned then repo.files - {TempOf(key)} else repo.files, uploading := repo.uploading - {key})
    case UploadRenamed(key, bytes) =>
      repo.(files := Renamed(repo.files, TempOf(key), key), unrecorded := repo.unrecorded + {(key, bytes)},
            uploading := repo.uploading - {key})
    case UploadRecorded(key, bytes) =>
      repo.(hashes := repo.hashes[key := Sha256(bytes)], unrecorded := repo.unrecorded - {(key, bytes)})
  }

  function Renamed(files: map<Key, Bytes>, from: Key, to: Key): map<Key, Bytes> {
    if from in files then (files - {from})[to := files[from]] else files
  }

  // --- Steps

  function OfferConfig(w: World, id: string, body: Bytes, delivered: bool): World
    requires id in w.agents
  {
    var r := ConfigRef(body, Sha256(body));
    var a := w.agents[id];
    World(SetPendingConfig(w.table, id, r), w.repo,
          if delivered then w.agents[id := a.(configOffer := Some(r))] else w.agents)
  }

  function OfferPackage(w: World, id: string, r: PackageRef, delivered: bool): World
    requires id in w.agents
  {
    var a := w.agents[id];
    World(SetPendingPackage(w.table, id, r), w.repo,
          if delivered then w.agents[id := a.(packageOffer := Some(r))] else w.agents)
  }

  /** handleRemoteConfig: validate, swap, acknowledge. */
  function TakeConfig(a: AgentState, valid: bool): AgentState
    requires a.configOffer.Some?
  {
    if valid
    then a.(live := a.configOffer.value.body, configOffer := None, configAck := Some(Applied))
    else a.(configOffer := None, configAck := Some(Failed("rejected")))
  }

  /** The download the offer points at, as handleDownloadPackage serves it. */
  function Download(repo: Repo, key: Key): Option<Bytes> {
    if key in repo.hashes && key in repo.files then Some(repo.files[key]) else None
  }

  predicate Installs(repo: Repo, r: PackageRef, runs: bool) {
    var data := Download(repo, (r.name, r.version));
    data.Some? && Sha256(data.value) == r.hash && runs
  }

  /** UpdateContent: download, compare the hash, prove it runs, swap, acknowledge. */
  function TakePackage(a: AgentState, repo: Repo, runs: bool): AgentState
    requires a.packageOffer.Some?
  {
    var r := a.packageOffer.value;
    if Installs(repo, r, runs)
    then a.(binary := Download(repo, (r.name, r.version)).value, packageOffer := None, packageAck := Some(Applied))
    else a.(packageOffer := None, packageAck := Some(Failed("not installed")))
  }

  /** checkEffectiveConfigDrift. */
  function Tick(a: AgentState): AgentState {
    if Sha256(a.live) == a.lastReported then a
    else a.(lastReported := Sha256(a.live), reports := a.reports + [a.live])
  }

  function ReceiveFrom(w: World, e: Event, a: AgentState): World
    requires Enabled(w, e) && Received(w, e).Some?
  {
    w.(table := HandleMessage(w.table, e.id, Received(w, e).value), agents := w.agents[e.id := a])
  }

  function RollbackStep(w: World, id: string, delivered: bool): World
    requires id in w.agents
  {
    if id in w.table && w.table[id].config.lastGood.body != ""
    then OfferConfig(w, id, w.table[id].config.lastGood.body, delivered)
    else w
  }

  function RollbackPackageStep(w: World, id: string, delivered: bool): World
    requires id in w.agents
  {
    if id in w.table && w.table[id].package.lastGood.version != ""
    then OfferPackage(w, id, w.table[id].package.lastGood, delivered)
    else w
  }

  predicate ConfigIdle(a: AgentState) {
    a.configOffer.None? && a.configAck.None?
  }

  predicate PackageIdle(a: AgentState) {
    a.packageOffer.None? && a.packageAck.None?
  }

  /** When an event can happen. Pushes wait until the previous exchange with that agent
      is over, and uploads until no other writes to the same path: the server itself
      enforces neither. */
  predicate Enabled(w: World, e: Event) {
    match e
    case UploadStarted(_) | UploadReceived(_, _) | UploadBroken(_, _) | UploadRenamed(_, _) | UploadRecorded(_, _) =>
      UploadEnabled(w.repo, e)
    case PushConfig(id, body, _) => id in w.agents && ConfigIdle(w.agents[id]) && body != ""
    case RollbackConfig(id, _) => id in w.agents && ConfigIdle(w.agents[id])
    case PushPackage(id, _, _) => id in w.agents && PackageIdle(w.agents[id])
    case RollbackPackage(id, _) => id in w.agents && PackageIdle(w.agents[id])
    case ConfigOfferLost(id) => id in w.agents && w.agents[id].configOffer.Some?
    case AgentTakesConfig(id, _) => id in w.agents && w.agents[id].configOffer.Some?
    case ServerGetsConfigAck(id) => id in w.agents && w.agents[id].configAck.Some?
    case PackageOfferLost(id) => id in w.agents && w.agents[id].packageOffer.Some?
    case AgentTakesPackage(id, _) => id in w.agents && w.agents[id].packageOffer.Some?
    case ServerGetsPackageAck(id) => id in w.agents && w.agents[id].packageAck.Some?
    case ServerGetsReport(id) => id in w.agents && w.agents[id].reports != []
    case _ => e.id in w.agents
  }

  function Step(w: World, e: Event): (w': World)
    requires Enabled(w, e)
    ensures w'.agents.Keys == w.agents.Keys
  {
    match e
    case UploadStarted(_) | UploadReceived(_, _) | UploadBroken(_, _) | UploadRenamed(_, _) | UploadRecorded(_, _) =>
      w.(repo := RepoAfter(w.repo, e))
    case PushConfig(id, body, delivered) => OfferConfig(w, id, body, delivered)
    case RollbackConfig(id, delivered) => RollbackStep(w, id, delivered)
    case ConfigOfferLost(id) => w.(agents := w.agents[id := w.agents[id].(configOffer := None)])
    case AgentTakesConfig(id, valid) => w.(agents := w.agents[id := TakeConfig(w.agents[id], valid)])
    case ServerGetsConfigAck(id) =>
      ReceiveFrom(w, e, w.agents[id].(configAck := None))
    case HandEdit(id, body) => w.(agents := w.agents[id := w.agents[id].(live := body)])
    case ReportTick(id) => w.(agents := w.agents[id := Tick(w.agents[id])])
    case Restart(id) =>
      var a := w.agents[id];
      w.(agents := w.agents[id := a.(lastReported := NoDigest, reports := a.reports + [a.live])])
    case ServerGetsReport(id) =>
      ReceiveFrom(w, e, w.agents[id].(reports := w.agents[id].reports[1..]))
    case Heartbeat(id, _, _) => ReceiveFrom(w, e, w.agents[id])
    case TagRow(id, csv) => w.(table := SetTags(w.table, id, csv))
    case DeleteRow(id) => w.(table := Delete(w.table, id))
    case PushPackage(id, key, delivered) =>
      if key in w.repo.hashes then OfferPackage(w, id, PackageRef(key.0, key.1, w.repo.hashes[key]), delivered) else w
    case RollbackPackage(id, delivered) => RollbackPackageStep(w, id, delivered)
    case PackageOfferLost(id) => w.(agents := w.agents[id := w.agents[id].(packageOffer := None)])
    case AgentTakesPackage(id, runs) => w.(agents := w.agents[id := TakePackage(w.agents[id], w.repo, runs)])
    case ServerGetsPackageAck(id) =>
      ReceiveFrom(w, e, w.agents[id].(packageAck := None))
  }

  // --- Runs

  function Front(es: seq<Event>): seq<Event>
    requires es != []
  {
    es[..|es| - 1]
  }

  function Last(es: seq<Event>): Event
    requires es != []
  {
    es[|es| - 1]
  }

  /** An empty database, any files on the agents, nothing on the wire. */
  predicate Initial(w: World) {
    && w.table == map[]
    && w.repo == NO_PACKAGES
    && forall id :: id in w.agents ==>
         w.agents[id] == AgentState(w.agents[id].live, w.agents[id].binary, None, None, None, None, NoDigest, [])
  }

  predicate Legal(w: World, es: seq<Event>)
    decreases |es|, 0
  {
    es == [] || (Legal(w, Front(es)) && Enabled(Run(w, Front(es)), Last(es)))
  }

  function Run(w: World, es: seq<Event>): (w': World)
    requires Legal(w, es)
    ensures w'.agents.Keys == w.agents.Keys
    decreases |es|, 1
  {
    if es == [] then w else Step(Run(w, Front(es)), Last(es))
  }

  /** The message the server handles in a step, if any. */
  function Received(w: World, e: Event): Option<AgentMessage>
    requires Enabled(w, e)
  {
    match e
    case ServerGetsConfigAck(id) => Some(HEARTBEAT.(configStatus := w.agents[id].configAck))
    case ServerGetsReport(id) => Some(HEARTBEAT.(effectiveConfig := Some(w.agents[id].reports[0])))
    case ServerGetsPackageAck(id) => Some(HEARTBEAT.(packageStatuses := [w.agents[id].packageAck.value]))
    case Heartbeat(_, about, startedAt) => Some(HEARTBEAT.(description := about, startedAt := startedAt))
    case _ => None
  }

  /** An agent's row across a step in which the server handles some agent's message. */
  lemma ReceivedRow(w: World, e: Event, id: string)
    requires Enabled(w, e) && Received(w, e).Some?
    ensures var row, row' := RowOf(w.table, id), RowOf(Step(w, e).table, id);
            if e.id != id then row' == row
            else
              && row'.config == (if e.ServerGetsConfigAck? then
                                 Settled(row.config, NO_CONFIG, w.agents[id].configAck.value)
                                 else row.config)
              && row'.package == (if e.ServerGetsPackageAck? then
                                  Settled(row.package, NO_PACKAGE, w.agents[id].packageAck.value)
                                  else row.package)
              && row'.effectiveHash == (if e.ServerGetsReport? then Sha256(w.agents[id].reports[0])
                                        else row.effectiveHash)
              && row'.tagsCsv == row.tagsCsv
              && row'.about == (if e.Heartbeat? then e.about.GetOr(row.about) else row.about)
              && row'.restarts == (if e.Heartbeat? && e.startedAt.GetOr("") != ""
                                   then RestartHistory.Report(row.restarts, e.startedAt.value) else row.restarts)
  {
    var m := Received(w, e).value;
    HandleMessageEffect(w.table, e.id, m);
    if m.packageStatuses != [] {
      assert m.packageStatuses[..0] == [];
      assert SettledAll(RowOf(w.table, e.id).package, NO_PACKAGE, []) == RowOf(w.table, e.id).package;
    }
  }

  /** A run extended by one event. */
  lemma RunSnoc(w: World, es: seq<Event>, e: Event)
    requires Legal(w, es) && Enabled(Run(w, es), e)
    ensures Front(es + [e]) == es && Last(es + [e]) == e
    ensures Legal(w, es + [e]) && Run(w, es + [e]) == Step(Run(w, es), e)
  {
    assert Front(es + [e]) == es;
  }
}

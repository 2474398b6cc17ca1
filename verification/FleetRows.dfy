/**
 One row of the fleet server's `agents` table and the pure effect of every
 statement that changes it (fleet/sgcia-fleet-server/store.go).

 The server keeps, per agent, one pending slot and one last-known-good slot, once
 for configurations and once for packages; both pairs follow the same three
 transitions, so they share the type `Slots`.
 */
module FleetRows {
  import opened Options
  import RestartHistory

  /** File and message bodies; byte strings in the program. */
  type Bytes = string

  /** A hex sha256, or the empty string. The constructor makes sha256 injective and
      otherwise uninterpreted. */
  datatype Digest = NoDigest | Sha256(content: Bytes)

  datatype ConfigRef = ConfigRef(body: Bytes, hash: Digest)
  datatype PackageRef = PackageRef(name: string, version: string, hash: Digest)

  const NO_CONFIG := ConfigRef("", NoDigest)
  const NO_PACKAGE := PackageRef("", "", NoDigest)

  /** pending_*, last_known_good_* and last_*_error of one row. */
  datatype Slots<R> = Slots(pending: R, lastGood: R, error: string) {
    function Offer(r: R): Slots<R> {
      this.(pending := r)
    }

    function Promote(none: R): Slots<R> {
      Slots(none, pending, "")
    }

    function Discard(none: R, message: string): Slots<R> {
      Slots(none, lastGood, message)
    }
  }

  /** What an agent says about itself. */
  datatype Description = Description(hostname: string, serviceVersion: string, localUiAddr: string)

  datatype Row = Row(
    about: Description,
    tagsCsv: string,
    config: Slots<ConfigRef>,
    package: Slots<PackageRef>,
    restarts: RestartHistory.Record,
    effectiveHash: Digest)

  /** The column defaults: what an INSERT that names only the key leaves behind. */
  const FRESH_ROW := Row(Description("", "", ""), "",
                         Slots(NO_CONFIG, NO_CONFIG, ""),
                         Slots(NO_PACKAGE, NO_PACKAGE, ""),
                         RestartHistory.EMPTY,
                         NoDigest)

  type Table = map<string, Row>

  function RowOf(t: Table, id: string): Row {
    if id in t then t[id] else FRESH_ROW
  }

  // --- The statements of store.go, as functions on the table. "INSERT ... ON
  // --- CONFLICT DO UPDATE" creates the row; a plain UPDATE does not.

  function Touch(t: Table, id: string): Table {
    t[id := RowOf(t, id)]
  }

  function Describe(t: Table, id: string, about: Description): Table {
    t[id := RowOf(t, id).(about := about)]
  }

  function SetTags(t: Table, id: string, csv: string): Table {
    t[id := RowOf(t, id).(tagsCsv := csv)]
  }

  function SetPendingConfig(t: Table, id: string, r: ConfigRef): Table {
    var row := RowOf(t, id);
    t[id := row.(config := row.config.Offer(r))]
  }

  function PromoteConfig(t: Table, id: string): Table {
    if id in t then t[id := t[id].(config := t[id].config.Promote(NO_CONFIG))] else t
  }

  function FailConfig(t: Table, id: string, message: string): Table {
    if id in t then t[id := t[id].(config := t[id].config.Discard(NO_CONFIG, message))] else t
  }

  function SetPendingPackage(t: Table, id: string, r: PackageRef): Table {
    var row := RowOf(t, id);
    t[id := row.(package := row.package.Offer(r))]
  }

  function PromotePackage(t: Table, id: string): Table {
    if id in t then t[id := t[id].(package := t[id].package.Promote(NO_PACKAGE))] else t
  }

  function FailPackage(t: Table, id: string, message: string): Table {
    if id in t then t[id := t[id].(package := t[id].package.Discard(NO_PACKAGE, message))] else t
  }

  function RecordStartedAt(t: Table, id: string, startedAt: string): Table {
    var row := RowOf(t, id);
    if row.restarts.lastStartedAt == startedAt then t
    else t[id := row.(restarts := RestartHistory.Observe(row.restarts, startedAt))]
  }

  function SetEffectiveHash(t: Table, id: string, hash: Digest): Table {
    t[id := RowOf(t, id).(effectiveHash := hash)]
  }

  function Delete(t: Table, id: string): Table {
    t - {id}
  }

  /** The flag scanAgents derives for every row it reads. */
  predicate ConfigDrifted(row: Row) {
    && row.config.lastGood.hash != NoDigest
    && row.effectiveHash != NoDigest
    && row.effectiveHash != row.config.lastGood.hash
    && row.effectiveHash != row.config.pending.hash
  }

  // --- Messages an agent sends, and what the server does with one.

  datatype Status = Applied | Failed(message: string) | InProgress

  datatype AgentMessage = AgentMessage(
    description: Option<Description>,
    startedAt: Option<string>,
    effectiveConfig: Option<Bytes>,
    configStatus: Option<Status>,
    packageStatuses: seq<Status>)

  const HEARTBEAT := AgentMessage(None, None, None, None, [])

  function Introduce(t: Table, id: string, description: Option<Description>): Table {
    match description
    case Some(about) => Describe(t, id, about)
    case None => Touch(t, id)
  }

  function NoteStart(t: Table, id: string, startedAt: Option<string>): Table {
    match startedAt
    case Some(s) => if s != "" then RecordStartedAt(t, id, s) else t
    case None => t
  }

  function NoteEffective(t: Table, id: string, body: Option<Bytes>): Table {
    match body
    case Some(b) => SetEffectiveHash(t, id, Sha256(b))
    case None => t
  }

  function SettleConfig(t: Table, id: string, status: Option<Status>): Table {
    match status
    case Some(Applied) => PromoteConfig(t, id)
    case Some(Failed(message)) => FailConfig(t, id, message)
    case _ => t
  }

  function SettlePackage(t: Table, id: string, status: Status): Table {
    match status
    case Applied => PromotePackage(t, id)
    case Failed(message) => FailPackage(t, id, message)
    case InProgress => t
  }

  function SettlePackages(t: Table, id: string, statuses: seq<Status>): Table {
    if statuses == [] then t
    else
      var n := |statuses| - 1;
      SettlePackage(SettlePackages(t, id, statuses[..n]), id, statuses[n])
  }

  function HandleMessage(t: Table, id: string, m: AgentMessage): Table {
    var t1 := NoteStart(Introduce(t, id, m.description), id, m.startedAt);
    var t2 := SettleConfig(NoteEffective(t1, id, m.effectiveConfig), id, m.configStatus);
    SettlePackages(t2, id, m.packageStatuses)
  }

  // --- What one message does to the sender's row, and to no other

  function Settled<R>(s: Slots<R>, none: R, status: Status): Slots<R> {
    match status
    case Applied => s.Promote(none)
    case Failed(message) => s.Discard(none, message)
    case InProgress => s
  }

  function SettledAll<R>(s: Slots<R>, none: R, statuses: seq<Status>): Slots<R> {
    if statuses == [] then s
    else Settled(SettledAll(s, none, statuses[..|statuses| - 1]), none, statuses[|statuses| - 1])
  }

  lemma {:induction false} SettlePackagesEffect(t: Table, id: string, statuses: seq<Status>)
    requires id in t
    ensures SettlePackages(t, id, statuses) ==
            t[id := t[id].(package := SettledAll(t[id].package, NO_PACKAGE, statuses))]
  {
    if statuses != [] {
      SettlePackagesEffect(t, id, statuses[..|statuses| - 1]);
    }
  }

  /** The sender's row after a message, column by column. */
  function RowAfter(row: Row, m: AgentMessage): Row {
    Row(m.description.GetOr(row.about),
        row.tagsCsv,
        (match m.configStatus
         case Some(status) => Settled(row.config, NO_CONFIG, status)
         case None => row.config),
        SettledAll(row.package, NO_PACKAGE, m.packageStatuses),
        (match m.startedAt
         case Some(s) => if s == "" then row.restarts else RestartHistory.Report(row.restarts, s)
         case None => row.restarts),
        (match m.effectiveConfig
         case Some(b) => Sha256(b)
         case None => row.effectiveHash))
  }

  lemma IntroduceEffect(t: Table, id: string, m: AgentMessage)
    ensures NoteStart(Introduce(t, id, m.description), id, m.startedAt)
         == t[id := RowOf(t, id).(about := RowAfter(RowOf(t, id), m).about,
                                  restarts := RowAfter(RowOf(t, id), m).restarts)]
  {
  }

  lemma SettleEffect(t: Table, id: string, m: AgentMessage)
    requires id in t
    ensures SettleConfig(NoteEffective(t, id, m.effectiveConfig), id, m.configStatus)
         == t[id := t[id].(config := RowAfter(t[id], m).config, effectiveHash := RowAfter(t[id], m).effectiveHash)]
  {
  }

  /** A message changes its sender's row only, creating it if need be; each part of the
      message changes its own columns only, and the package columns see the package
      statuses one after another. */
  lemma HandleMessageEffect(t: Table, id: string, m: AgentMessage)
    ensures HandleMessage(t, id, m) == t[id := RowAfter(RowOf(t, id), m)]
  {
    hide NoteStart, Introduce, SettleConfig, NoteEffective, SettlePackages, SettledAll, Settled, RestartHistory.Report;
    IntroduceEffect(t, id, m);
    var t1 := NoteStart(Introduce(t, id, m.description), id, m.startedAt);
    SettleEffect(t1, id, m);
    var t2 := SettleConfig(NoteEffective(t1, id, m.effectiveConfig), id, m.configStatus);
    SettlePackagesEffect(t2, id, m.packageStatuses);
  }
}

/**
 The fleet server's handlers (fleet/sgcia-fleet-server/api.go and opampserver.go):
 the REST requests that push, roll back, tag, upload and download, and the OpAMP
 callbacks. What goes out on agent connections is appended to `wire`.
 */
module FleetApi {
  import opened Options
  import opened FleetRows
  import opened FleetStore
  import opened PackagePaths
  import opened Registry
  import opened Text
  import PackageRollout
  import Rollout
  import Tags

  datatype Sent = ConfigSent(conn: Conn, config: ConfigRef) | PackageSent(conn: Conn, package: PackageRef)

  /** How a push request ends. */
  datatype Outcome = Delivered | NotConnected | SendFailed | BadRequest | NotFound

  datatype BulkResult = BulkResult(id: string, hostname: string, outcome: Outcome)

  /** filterByTag. */
  function Tagged(views: seq<AgentView>, tag: string): seq<AgentView> {
    if views == [] then []
    else
      var front, last := Tagged(views[..|views| - 1], tag), views[|views| - 1];
      if tag in last.tags then front + [last] else front
  }

  method FilterByTag(agents: seq<AgentView>, tag: string) returns (out: seq<AgentView>)
    ensures out == Tagged(agents, tag)
  {
    out := [];
    for i := 0 to |agents|
      invariant out == Tagged(agents[..i], tag)
    {
      assert agents[..i + 1][..i] == agents[..i];
      var tags := agents[i].tags;
      for j := 0 to |tags|
        invariant tag !in tags[..j]
        invariant out == Tagged(agents[..i], tag)
      {
        if tags[j] == tag {
          out := out + [agents[i]];
          break;
        }
      }
    }
    assert agents[..|agents|] == agents;
  }

  /** The filter keeps the order: its result stands at the increasing positions `at`, which are
      exactly the positions of the agents carrying the tag. */
  lemma {:induction false} TaggedKeepsOrder(views: seq<AgentView>, tag: string) returns (at: seq<nat>)
    ensures |at| == |Tagged(views, tag)|
    ensures forall k :: 0 <= k < |at| ==> at[k] < |views| && views[at[k]] == Tagged(views, tag)[k]
    ensures forall j, k :: 0 <= j < k < |at| ==> at[j] < at[k]
    ensures forall i :: 0 <= i < |views| ==> (i in at <==> tag in views[i].tags)
  {
    at := [];
    if views != [] {
      at := TaggedKeepsOrder(views[..|views| - 1], tag);
      if tag in views[|views| - 1].tags { at := at + [|views| - 1]; }
    }
  }

  lemma TaggedIffTag(views: seq<AgentView>, tag: string)
    ensures forall v :: v in Tagged(views, tag) <==> v in views && tag in v.tags
  {
    var at := TaggedKeepsOrder(views, tag);
    forall v | v in Tagged(views, tag) ensures v in views && tag in v.tags {
      var k :| 0 <= k < |at| && Tagged(views, tag)[k] == v;
      assert at[k] in at;
    }
    forall v | v in views && tag in v.tags ensures v in Tagged(views, tag) {
      var i :| 0 <= i < |views| && views[i] == v;
      assert i in at;
      var k :| 0 <= k < |at| && at[k] == i;
    }
  }

  /** The table after a bulk push: exactly the tagged rows have the new pending config. */
  function BulkOffered(t: Table, tag: string, r: ConfigRef): Table {
    map id | id in t :: if tag in ParseList(t[id].tagsCsv) then t[id].(config := t[id].config.Offer(r)) else t[id]
  }

  function OfferedToEach(t: Table, views: seq<AgentView>, r: ConfigRef): Table {
    if views == [] then t
    else FleetRows.SetPendingConfig(OfferedToEach(t, views[..|views| - 1], r), views[|views| - 1].id, r)
  }

  predicate IsResultFor(result: BulkResult, v: AgentView, connected: map<string, Conn>) {
    && result.id == v.id && result.hostname == v.row.about.hostname
    && result.outcome in {Delivered, NotConnected, SendFailed}
    && (result.outcome == NotConnected <==> v.id !in connected)
  }

  /** The messages of a bulk push: one for each agent it was delivered to, in order. */
  function Sends(views: seq<AgentView>, results: seq<BulkResult>, r: ConfigRef, connected: map<string, Conn>): seq<Sent>
    requires |views| == |results|
  {
    if views == [] then [] else
      var n := |views| - 1;
      var id := views[n].id;
      Sends(views[..n], results[..n], r, connected) +
      if results[n].outcome == Delivered && id in connected then [ConfigSent(connected[id], r)] else []
  }

  function Failures(results: seq<BulkResult>): nat {
    if results == [] then 0
    else Failures(results[..|results| - 1]) + if results[|results| - 1].outcome == SendFailed then 1 else 0
  }

  /** How an upload ends. */
  datatype UploadOutcome = Refused | Interrupted | NotRecorded | Uploaded

  class FleetServer {
    const store: Store
    const registry: ConnRegistry
    const lower: string -> string
    var files: map<(string, string), Bytes>
    var wire: seq<Sent>
    ghost var faults: nat   // sends and file operations that have failed

    constructor (lower: string -> string)
      ensures fresh(store) && fresh(registry)
      ensures store.agents == map[] && registry.byID == map[] && files == map[] && wire == []
    {
      this.lower := lower;
      store := new Store();
      registry := new ConnRegistry();
      files := map[];
      wire := [];
      faults := 0;
    }

    /** How a recorded push went out: on the agent's connection and reported as delivered, not at
        all for want of a connection, or not because sending failed. */
    twostate predicate Sending(outcome: Outcome, id: string, r: ConfigRef)
      reads this, registry
    {
      if id !in registry.byID then outcome == NotConnected && wire == old(wire)
      else if faults > old(faults) then outcome == SendFailed && wire == old(wire)
      else outcome == Delivered && wire == old(wire) + [ConfigSent(registry.byID[id], r)]
    }

    twostate predicate SendingPackage(outcome: Outcome, id: string, r: PackageRef)
      reads this, registry
    {
      if id !in registry.byID then outcome == NotConnected && wire == old(wire)
      else if faults > old(faults) then outcome == SendFailed && wire == old(wire)
      else outcome == Delivered && wire == old(wire) + [PackageSent(registry.byID[id], r)]
    }

    /** Sending on a connection can fail after the push has been recorded. */
    method PushConfig(id: string, configYaml: Bytes, hash: Digest) returns (outcome: Outcome)
      modifies this`wire, this`faults
      ensures outcome in {Delivered, NotConnected, SendFailed}
      ensures outcome == NotConnected <==> id !in registry.byID
      ensures faults == old(faults) + if outcome == SendFailed then 1 else 0
      ensures wire == if outcome == Delivered then
              old(wire) + [ConfigSent(registry.byID[id], ConfigRef(configYaml, hash))]
                      else old(wire)
    {
      var conn := registry.Get(id);
      if conn.None? {
        return NotConnected;
      }
      if * {
        faults := faults + 1;
        return SendFailed;
      }
      wire := wire + [ConfigSent(conn.value, ConfigRef(configYaml, hash))];
      outcome := Delivered;
    }

    method PushPackage(id: string, r: PackageRef) returns (outcome: Outcome)
      modifies this`wire, this`faults
      ensures outcome in {Delivered, NotConnected, SendFailed}
      ensures outcome == NotConnected <==> id !in registry.byID
      ensures faults == old(faults) + if outcome == SendFailed then 1 else 0
      ensures wire == if outcome == Delivered then old(wire) + [PackageSent(registry.byID[id], r)] else old(wire)
    {
      var conn := registry.Get(id);
      if conn.None? {
        return NotConnected;
      }
      if * {
        faults := faults + 1;
        return SendFailed;
      }
      wire := wire + [PackageSent(conn.value, r)];
      outcome := Delivered;
    }

    /** Recorded as pending first, whether or not the agent can be reached. */
    method PushConfigToAgent(id: string, configYaml: Bytes, hash: Digest) returns (outcome: Outcome)
      modifies this`wire, this`faults, store`agents
      ensures store.agents == FleetRows.SetPendingConfig(old(store.agents), id, ConfigRef(configYaml, hash))
      ensures outcome in {Delivered, NotConnected, SendFailed}
      ensures outcome == NotConnected <==> id !in registry.byID
      ensures faults == old(faults) + if outcome == SendFailed then 1 else 0
      ensures wire == if outcome == Delivered then
              old(wire) + [ConfigSent(registry.byID[id], ConfigRef(configYaml, hash))]
                      else old(wire)
    {
      store.SetPendingConfig(id, configYaml, hash);
      outcome := PushConfig(id, configYaml, hash);
    }

    method PushPackageToAgent(id: string, r: PackageRef) returns (outcome: Outcome)
      modifies this`wire, this`faults, store`agents
      ensures store.agents == FleetRows.SetPendingPackage(old(store.agents), id, r)
      ensures outcome in {Delivered, NotConnected, SendFailed}
      ensures outcome == NotConnected <==> id !in registry.byID
      ensures faults == old(faults) + if outcome == SendFailed then 1 else 0
      ensures wire == if outcome == Delivered then old(wire) + [PackageSent(registry.byID[id], r)] else old(wire)
    {
      store.SetPendingPackage(id, r);
      outcome := PushPackage(id, r);
    }

    /** `isYaml` is the verdict of the YAML library on the text. */
    method HandlePushConfig(id: string, configYaml: Bytes, isYaml: bool) returns (outcome: Outcome)
      modifies this`wire, this`faults, store`agents
      ensures outcome == BadRequest <==> Trim(configYaml) == "" || !isYaml
      ensures outcome == BadRequest ==> store.agents == old(store.agents) && wire == old(wire)
      ensures outcome != BadRequest ==>
                && configYaml != ""
                && store.agents == FleetRows.SetPendingConfig(old(store.agents), id,
                                                              ConfigRef(configYaml, Sha256(configYaml)))
                && Sending(outcome, id, ConfigRef(configYaml, Sha256(configYaml)))
    {
      if Trim(configYaml) == "" || !isYaml {
        return BadRequest;
      }
      outcome := PushConfigToAgent(id, configYaml, Sha256(configYaml));
    }

    /** The table afterwards is that of the rollback step of the protocol. */
    method HandleRollback(id: string, clock: Clock) returns (outcome: Outcome)
      modifies this`wire, this`faults, store`agents
      ensures forall w: Rollout.World :: w.table == old(store.agents) && id in w.agents ==>
                store.agents == Rollout.RollbackStep(w, id, outcome == Delivered).table
      ensures outcome == NotFound <==> id !in old(store.agents) || old(store.agents)[id].config.lastGood.body == ""
      ensures outcome == NotFound ==> store.agents == old(store.agents) && wire == old(wire)
      ensures outcome != NotFound ==>
                var body := old(store.agents)[id].config.lastGood.body;
                Sending(outcome, id, ConfigRef(body, Sha256(body)))
    {
      var agent := store.GetAgent(id, clock);
      if agent.None? || agent.value.row.config.lastGood.body == "" {
        return NotFound;
      }
      var good := agent.value.row.config.lastGood.body;
      outcome := PushConfigToAgent(id, good, Sha256(good));
    }

    /** Exactly the agents carrying the tag get the config as pending, and the answer has
        one result for each of them, in listing order. */
    method HandleBulkPushConfig(tag: string, configYaml: Bytes, isYaml: bool, clock: Clock)
      returns (results: seq<BulkResult>, outcome: Outcome, ghost listing: seq<AgentView>)
      modifies this`wire, this`faults, store`agents
      ensures IsListing(old(store.agents), Ids(listing))
      ensures forall v :: v in listing ==> v.id in old(store.agents) && v == View(v.id, old(store.agents)[v.id], clock)
      ensures outcome == BadRequest <==> tag == "" || Trim(configYaml) == "" || !isYaml
      ensures outcome == NotFound ==> Tagged(listing, tag) == []
      ensures outcome in {Delivered, NotFound, BadRequest}
      ensures outcome != Delivered ==> store.agents == old(store.agents) && wire == old(wire) && results == []
      ensures outcome == Delivered ==>
                && Tagged(listing, tag) != []
                && store.agents == BulkOffered(old(store.agents), tag, ConfigRef(configYaml, Sha256(configYaml)))
                && |results| == |Tagged(listing, tag)|
                && (forall i :: 0 <= i < |results| ==> IsResultFor(results[i], Tagged(listing, tag)[i], registry.byID))
                && faults == old(faults) + Failures(results)
                && wire == old(wire) + Sends(Tagged(listing, tag), results, ConfigRef(configYaml, Sha256(configYaml)),
                                             registry.byID)
    {
      results := [];
      var all := store.ListAgents(clock);
      listing := all;
      if tag == "" || Trim(configYaml) == "" || !isYaml {
        return [], BadRequest, listing;
      }
      var matched := FilterByTag(all, tag);
      if |matched| == 0 {
        return [], NotFound, listing;
      }
      BulkOfferedExactly(store.agents, all, tag, ConfigRef(configYaml, Sha256(configYaml)), clock);
      results := PushConfigToEach(matched, configYaml, Sha256(configYaml));
      outcome := Delivered;
    }

    method PushConfigToEach(matched: seq<AgentView>, configYaml: Bytes, hash: Digest) returns (results: seq<BulkResult>)
      modifies this`wire, this`faults, store`agents
      ensures store.agents == OfferedToEach(old(store.agents), matched, ConfigRef(configYaml, hash))
      ensures |results| == |matched|
      ensures forall i :: 0 <= i < |matched| ==> IsResultFor(results[i], matched[i], registry.byID)
      ensures faults == old(faults) + Failures(results)
      ensures wire == old(wire) + Sends(matched, results, ConfigRef(configYaml, hash), registry.byID)
    {
      hide OfferedToEach, Sends, Failures;
      results := [];
      NothingSent(store.agents, ConfigRef(configYaml, hash), registry.byID);
      assert matched[..0] == [];
      for i := 0 to |matched|
        invariant store.agents == OfferedToEach(old(store.agents), matched[..i], ConfigRef(configYaml, hash))
        invariant |results| == i
        invariant forall k :: 0 <= k < i ==> IsResultFor(results[k], matched[k], registry.byID)
        invariant faults == old(faults) + Failures(results)
        invariant wire == old(wire) + Sends(matched[..i], results, ConfigRef(configYaml, hash), registry.byID)
      {
        OneMoreOffered(old(store.agents), matched, i, ConfigRef(configYaml, hash));
        var a := matched[i];
        var sent := PushConfigToAgent(a.id, configYaml, hash);
        OneMoreSent(matched, results, i, BulkResult(a.id, a.row.about.hostname, sent), ConfigRef(configYaml, hash),
                    registry.byID);
        results := results + [BulkResult(a.id, a.row.about.hostname, sent)];
      }
      assert matched[..|matched|] == matched;
    }

    method HandleSetTags(id: string, raw: seq<string>) returns (outcome: Outcome)
      modifies store`agents
      ensures outcome == BadRequest <==> Tags.Normalized(raw, lower).None?
      ensures store.agents == match Tags.Normalized(raw, lower)
                              case None => old(store.agents)
                              case Some(tags) => FleetRows.SetTags(old(store.agents), id, Join(tags, ","))
    {
      var seen: set<string> := {};
      var normalized := [];
      for i := 0 to |raw|
        invariant Tags.Normalized(raw[..i], lower) == Some(normalized)
        invariant forall t :: t in seen <==> t in normalized
      {
        assert raw[..i + 1][..i] == raw[..i];
        var t := lower(Trim(raw[i]));
        if t == "" {
          continue;
        }
        if ',' in t {
          RefusalIsFinal(raw, i + 1, lower);
          return BadRequest;
        }
        if t !in seen {
          seen := seen + {t};
          normalized := normalized + [t];
        }
      }
      assert raw[..|raw|] == raw;
      store.SetTags(id, normalized);
      outcome := Delivered;
    }

    method HandleDeleteAgent(id: string) returns (outcome: Outcome)
      modifies store`agents
      ensures store.agents == Delete(old(store.agents), id)
      ensures outcome == NotFound <==> id !in old(store.agents)
    {
      var deleted := store.DeleteAgent(id);
      outcome := if deleted then Delivered else NotFound;
    }

    /** The upload goes to a temporary file beside the versions, is renamed into place when it
        is complete, and only then recorded. `steps` are the steps of the protocol it takes:
        whatever interrupts it, files and recorded hashes are what these steps make of them.
        `repo` adds the other uploads under way; if none shares a path with this one, every
        step is one the protocol allows. */
    method HandleUploadPackage(name: string, version: string, chunks: seq<Bytes>, complete: bool,
                               ghost repo: Rollout.Repo)
      returns (outcome: UploadOutcome, ghost steps: seq<Rollout.Event>)
      requires Holds(repo)
      modifies this`files, this`faults, store`packages
      ensures outcome == Refused <==>
                Trim(version) == "" || !IsSafePathComponent(name) || !IsSafePathComponent(Trim(version))
      ensures TakesSteps(repo, (name, Trim(version)), steps)
      ensures outcome == Refused ==> steps == []
      ensures outcome == Interrupted ==> !complete || faults > old(faults)
      ensures outcome == NotRecorded ==> faults > old(faults)
      ensures faults == old(faults) ==>
                outcome == Refused || if complete then outcome == Uploaded else outcome == Interrupted
      ensures var key := (name, Trim(version));
              forall k :: k != Rollout.TempOf(key) && (k != key || outcome in {Refused, Interrupted}) ==>
                (k in files <==> k in old(files)) && (k in files ==> files[k] == old(files)[k])
      ensures outcome in {NotRecorded, Uploaded} ==>
                && complete
                && files == (old(files) - {Rollout.TempOf((name, Trim(version)))})[(name, Trim(version)) :=
                    Concat(chunks)]
      ensures store.packages == if outcome == Uploaded then
              old(store.packages)[(name, Trim(version)) := Sha256(Concat(chunks))]
                                else old(store.packages)
    {
      hide PackageRollout.Uploaded, MayTake, IsReceived, IsSafePathComponent, Trim, Concat;
      steps := [];
      NoStepYet(repo, (name, Trim(version)));
      var key := (name, Trim(version));
      if key.1 == "" || !IsSafePathComponent(name) || !IsSafePathComponent(key.1) {
        return Refused, steps;
      }
      if * {
        faults := faults + 1;
        return Interrupted, steps;
      }
      var ok;
      ok, steps := ReceiveUpload(key, chunks, complete, repo);
      if !ok {
        return Interrupted, steps;
      }
      var recorded;
      recorded, steps := FinishUpload(key, Concat(chunks), repo, steps);
      outcome := if recorded then Uploaded else NotRecorded;
    }

    /** The rename, and the row if writing it succeeds. */
    method FinishUpload(key: Rollout.Key, body: Bytes, ghost before: Rollout.Repo, ghost received: seq<Rollout.Event>)
      returns (recorded: bool, ghost steps: seq<Rollout.Event>)
      requires Rollout.TempOf(key) in files && files[Rollout.TempOf(key)] == body
      requires TakesSteps(before, key, received) && IsReceived(PackageRollout.Uploaded(before, received), key, body)
      modifies this`files, this`faults, store`packages
      ensures TakesSteps(before, key, steps)
      ensures faults >= old(faults) && (recorded <==> faults == old(faults))
      ensures files == (old(files) - {Rollout.TempOf(key)})[key := body]
      ensures store.packages == if recorded then old(store.packages)[key := Sha256(body)] else old(store.packages)
    {
      hide PackageRollout.Uploaded, PackageRollout.LegalUpload;
      NextStep(before, key, received, body, Rollout.UploadRenamed(key, body));
      files := Rollout.Renamed(files, Rollout.TempOf(key), key);
      steps := received + [Rollout.UploadRenamed(key, body)];
      recorded := *;
      if recorded {
        PackageRollout.OneMoreStep(before, steps, Rollout.UploadRecorded(key, body));
        store.RecordPackage(key.0, key.1, Sha256(body));
        steps := steps + [Rollout.UploadRecorded(key, body)];
      } else {
        faults := faults + 1;
      }
    }

    ghost predicate Holds(repo: Rollout.Repo)
      reads this`files, store`packages
    {
      repo.files == files && repo.hashes == store.packages
    }

    /** The steps lead from there to here, and are allowed if the upload could start. */
    ghost predicate TakesSteps(repo: Rollout.Repo, key: Rollout.Key, steps: seq<Rollout.Event>)
      reads this`files, store`packages
    {
      MayTake(repo, key, steps) && Holds(PackageRollout.Uploaded(repo, steps))
    }

    /** Everything up to the rename; a failure may leave the temporary file behind. */
    method ReceiveUpload(key: Rollout.Key, chunks: seq<Bytes>, complete: bool, ghost repo: Rollout.Repo)
      returns (ok: bool, ghost steps: seq<Rollout.Event>)
      requires Holds(repo)
      modifies this`files, this`faults
      ensures TakesSteps(repo, key, steps)
      ensures faults >= old(faults) && (ok <==> complete && faults == old(faults))
      ensures ok ==> IsReceived(PackageRollout.Uploaded(repo, steps), key, Concat(chunks))
      ensures forall k :: k != Rollout.TempOf(key) ==>
                (k in files <==> k in old(files)) && (k in files ==> files[k] == old(files)[k])
      ensures ok ==> complete && files == old(files)[Rollout.TempOf(key) := Concat(chunks)]
    {
      hide PackageRollout.Uploaded, PackageRollout.LegalUpload, Rollout.CanStart;
      var temp := Rollout.TempOf(key);
      FirstStep(repo, key);
      files := files[temp := ""];
      steps := [Rollout.UploadStarted(key)];
      var received := "";
      ok := true;
      for i := 0 to |chunks|
        invariant received == Concat(chunks[..i]) && files == old(files)[temp := received] && faults == old(faults)
        invariant TakesSteps(repo, key, steps) && IsReceived(PackageRollout.Uploaded(repo, steps), key, received)
      {
        assert chunks[..i + 1][..i] == chunks[..i];
        ok := *;
        if !ok {
          faults := faults + 1;
          break;
        }
        received := received + chunks[i];
        files := files[temp := received];
        NextStep(repo, key, steps, Concat(chunks[..i]), Rollout.UploadReceived(key, received));
        steps := steps + [Rollout.UploadReceived(key, received)];
      }
      assert ok ==> chunks[..|chunks|] == chunks;
      var renamable := *;
      if !renamable {
        faults := faults + 1;
      }
      ok := ok && complete && renamable;
      if !ok {
        var cleaned := *;
        files := if cleaned then files - {temp} else files;
        NextStep(repo, key, steps, received, Rollout.UploadBroken(key, cleaned));
        steps := steps + [Rollout.UploadBroken(key, cleaned)];
      }
    }

    /** Guarded by the shared token, if one is set. */
    method HandleDownloadPackage(token: string, authorization: string, name: string, version: string)
      returns (data: Option<Bytes>)
      ensures data.Some? <==>
              && (token == "" || authorization == "Bearer " + token)
              && IsSafePathComponent(name) && IsSafePathComponent(Trim(version))
              && (name, Trim(version)) in store.packages && (name, Trim(version)) in files
      ensures data.Some? ==> data.value == files[(name, Trim(version))]
      ensures data == if (token == "" || authorization == "Bearer " + token)
                         && Trim(version) != "" && IsSafePathComponent(name) && IsSafePathComponent(Trim(version))
                      then Rollout.Download(Rollout.Repo(files, store.packages, {}, map[]), (name, Trim(version)))
                      else None
    {
      if token != "" && authorization != "Bearer " + token {
        return None;
      }
      var v := Trim(version);
      if v == "" || !IsSafePathComponent(name) || !IsSafePathComponent(v) {
        return None;
      }
      var hash := store.GetPackage(name, v);
      if hash.None? || (name, v) !in files {
        return None;
      }
      data := Some(files[(name, v)]);
    }

    method HandlePushPackage(id: string, name: string, version: string) returns (outcome: Outcome)
      modifies this`wire, this`faults, store`agents
      ensures outcome == BadRequest <==> name == "" || version == ""
      ensures outcome == NotFound <==> name != "" && version != "" && (name, version) !in store.packages
      ensures outcome in {BadRequest, NotFound} ==> store.agents == old(store.agents) && wire == old(wire)
      ensures outcome !in {BadRequest, NotFound} ==>
                var r := PackageRef(name, version, store.packages[(name, version)]);
                && store.agents == FleetRows.SetPendingPackage(old(store.agents), id, r)
                && SendingPackage(outcome, id, r)
    {
      if name == "" || version == "" {
        return BadRequest;
      }
      var hash := store.GetPackage(name, version);
      if hash.None? {
        return NotFound;
      }
      outcome := PushPackageToAgent(id, PackageRef(name, version, hash.value));
    }

    method HandleRollbackPackage(id: string, clock: Clock) returns (outcome: Outcome)
      modifies this`wire, this`faults, store`agents
      ensures forall w: Rollout.World :: w.table == old(store.agents) && id in w.agents ==>
                store.agents == Rollout.RollbackPackageStep(w, id, outcome == Delivered).table
      ensures outcome == NotFound <==> id !in old(store.agents) || old(store.agents)[id].package.lastGood.version == ""
      ensures outcome == NotFound ==> store.agents == old(store.agents) && wire == old(wire)
      ensures outcome != NotFound ==> SendingPackage(outcome, id, old(store.agents)[id].package.lastGood)
    {
      var agent := store.GetAgent(id, clock);
      if agent.None? || agent.value.row.package.lastGood.version == "" {
        return NotFound;
      }
      outcome := PushPackageToAgent(id, agent.value.row.package.lastGood);
    }

    // --- OpAMP callbacks

    method OnMessage(conn: Conn, id: string, m: AgentMessage)
      modifies store`agents, registry
      ensures store.agents == HandleMessage(old(store.agents), id, m)
      ensures registry.byID == old(registry.byID)[id := conn]
    {
      registry.Register(id, conn);
      HandleAgentMessage(id, m);
    }

    method OnConnectionClose(conn: Conn)
      modifies registry
      ensures Unregistered(old(registry.byID), conn, registry.byID)
    {
      registry.Unregister(conn);
    }

    method HandleAgentMessage(id: string, m: AgentMessage)
      modifies store`agents
      ensures store.agents == HandleMessage(old(store.agents), id, m)
    {
      if m.description.Some? {
        var about := m.description.value;
        store.UpsertAgentDescription(id, about.hostname, about.serviceVersion, about.localUiAddr);
      } else {
        store.TouchLastSeen(id);
      }
      if m.startedAt.Some? && m.startedAt.value != "" {
        store.RecordStartedAt(id, m.startedAt.value);
      }
      if m.effectiveConfig.Some? {
        store.SetEffectiveConfigHash(id, Sha256(m.effectiveConfig.value));
      }
      if m.configStatus.Some? {
        match m.configStatus.value
        case Applied => store.PromoteToLastKnownGood(id);
        case Failed(message) => store.RecordConfigFailure(id, message);
        case InProgress =>
      }
      ghost var settled := store.agents;
      for i := 0 to |m.packageStatuses|
        invariant store.agents == SettlePackages(settled, id, m.packageStatuses[..i])
      {
        assert m.packageStatuses[..i + 1][..i] == m.packageStatuses[..i];
        match m.packageStatuses[i]
        case Applied => store.PromotePackageToLastKnownGood(id);
        case Failed(message) => store.RecordPackageFailure(id, message);
        case InProgress =>
      }
      assert m.packageStatuses[..|m.packageStatuses|] == m.packageStatuses;
    }
  }

  predicate MayTake(repo: Rollout.Repo, key: Rollout.Key, steps: seq<Rollout.Event>) {
    && (forall e :: e in steps ==> Rollout.IsUpload(e))
    && (Rollout.CanStart(repo, key) ==> PackageRollout.LegalUpload(repo, steps))
  }

  /** The upload is under way and has received this. */
  predicate IsReceived(repo: Rollout.Repo, key: Rollout.Key, body: Bytes) {
    key in repo.uploading && repo.uploading[key] == body
  }

  lemma NoStepYet(repo: Rollout.Repo, key: Rollout.Key)
    ensures MayTake(repo, key, []) && PackageRollout.Uploaded(repo, []) == repo
  {
    PackageRollout.NoStep(repo);
  }

  lemma FirstStep(repo: Rollout.Repo, key: Rollout.Key)
    ensures var e := Rollout.UploadStarted(key);
            MayTake(repo, key, [e]) && PackageRollout.Uploaded(repo, [e]) == Rollout.RepoAfter(repo, e)
  {
    PackageRollout.NoStep(repo);
    PackageRollout.OneMoreStep(repo, [], Rollout.UploadStarted(key));
    assert [] + [Rollout.UploadStarted(key)] == [Rollout.UploadStarted(key)];
  }

  /** An upload under way may receive more, break off, or be renamed with all it received. */
  lemma NextStep(repo: Rollout.Repo, key: Rollout.Key, steps: seq<Rollout.Event>, body: Bytes, e: Rollout.Event)
    requires MayTake(repo, key, steps) && IsReceived(PackageRollout.Uploaded(repo, steps), key, body)
    requires Rollout.IsUpload(e) && e.key == key && !e.UploadStarted? && !e.UploadRecorded?
    requires (e.UploadReceived? ==> body <= e.bytes) && (e.UploadRenamed? ==> body == e.bytes)
    ensures MayTake(repo, key, steps + [e])
    ensures PackageRollout.Uploaded(repo, steps + [e]) == Rollout.RepoAfter(PackageRollout.Uploaded(repo, steps), e)
  {
    hide PackageRollout.Uploaded, PackageRollout.LegalUpload, Rollout.CanStart;
    PackageRollout.OneMoreStep(repo, steps, e);
  }

  lemma NothingSent(t: Table, r: ConfigRef, connected: map<string, Conn>)
    ensures OfferedToEach(t, [], r) == t && Sends([], [], r, connected) == [] && Failures([]) == 0
  {
  }

  lemma OneMoreSent(views: seq<AgentView>, results: seq<BulkResult>, i: nat, result: BulkResult, r: ConfigRef,
                    connected: map<string, Conn>)
    requires i < |views| && |results| == i
    ensures Sends(views[..i + 1], results + [result], r, connected) ==
            Sends(views[..i], results, r, connected) +
            if result.outcome == Delivered && views[i].id in connected then [ConfigSent(connected[views[i].id], r)]
              else []
    ensures Failures(results + [result]) == Failures(results) + if result.outcome == SendFailed then 1 else 0
  {
    assert views[..i + 1][..i] == views[..i] && (results + [result])[..i] == results;
  }

  lemma OneMoreOffered(t: Table, views: seq<AgentView>, i: nat, r: ConfigRef)
    requires i < |views|
    ensures OfferedToEach(t, views[..i + 1], r) ==
            FleetRows.SetPendingConfig(OfferedToEach(t, views[..i], r), views[i].id, r)
  {
    assert views[..i + 1][..i] == views[..i];
  }

  lemma {:induction false} OfferedToEachPointwise(t: Table, views: seq<AgentView>, r: ConfigRef, id: string)
    requires forall v :: v in views ==> v.id in t
    ensures OfferedToEach(t, views, r).Keys == t.Keys
    ensures id in t ==>
              OfferedToEach(t, views, r)[id] ==
              if exists v :: v in views && v.id == id then t[id].(config := t[id].config.Offer(r)) else t[id]
  {
    if views != [] {
      var front, last := views[..|views| - 1], views[|views| - 1];
      OfferedToEachPointwise(t, front, r, id);
      assert views == front + [last];
      assert last in views;
    }
  }

  lemma ListedOnce(t: Table, all: seq<AgentView>, tag: string, id: string, clock: Clock)
    requires IsListing(t, Ids(all)) && id in t
    requires forall v :: v in all ==> v.id in t && v == View(v.id, t[v.id], clock)
    ensures forall v :: v in Tagged(all, tag) ==> v in all
    ensures tag in ParseList(t[id].tagsCsv) <==> exists v :: v in Tagged(all, tag) && v.id == id
  {
    TaggedIffTag(all, tag);
    assert id in Ids(all);
    var i :| 0 <= i < |all| && Ids(all)[i] == id;
    assert all[i] in all && all[i].id == id;
  }

  /** Pushing to the filtered agents one after another changes exactly the tagged rows. */
  lemma BulkOfferedExactly(t: Table, all: seq<AgentView>, tag: string, r: ConfigRef, clock: Clock)
    requires IsListing(t, Ids(all))
    requires forall v :: v in all ==> v.id in t && v == View(v.id, t[v.id], clock)
    ensures OfferedToEach(t, Tagged(all, tag), r) == BulkOffered(t, tag, r)
  {
    hide OfferedToEach, Tagged, IsListing, View;
    TaggedIffTag(all, tag);
    OfferedToEachPointwise(t, Tagged(all, tag), r, "");
    forall id | id in t ensures OfferedToEach(t, Tagged(all, tag), r)[id] == BulkOffered(t, tag, r)[id] {
      ListedOnce(t, all, tag, id, clock);
      OfferedToEachPointwise(t, Tagged(all, tag), r, id);
    }
  }

  lemma {:induction false} RefusalIsFinal(raw: seq<string>, k: nat, lower: string -> string)
    requires k <= |raw| && Tags.Normalized(raw[..k], lower).None?
    ensures Tags.Normalized(raw, lower).None?
    decreases |raw| - k
  {
    if k < |raw| {
      assert raw[..k + 1][..k] == raw[..k];
      RefusalIsFinal(raw, k + 1, lower);
    } else {
      assert raw[..k] == raw;
    }
  }
}

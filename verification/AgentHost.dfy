/**
 The agent's half of a rollout (otelcol/extensions/statuscfgextension/opamp.go): the
 file operations behind a config push and a package push, one at a time, with every
 intermediate state of the file system on record, so that stopping anywhere is covered.
 */
module AgentHost {
  import opened FileSystem
  import opened Options
  import opened FleetRows
  import opened Text
  import Rollout

  class Agent {
    const disk: Disk
    const configPath: string
    const selfPath: string
    var lastEffectiveConfigHash: Digest
    var fileContentHash: map<string, Digest>
    var sent: seq<AgentMessage>
    ghost var sendFaults: nat   // reports that could not be sent

    ghost predicate Valid()
      reads this, disk
    {
      disk.Valid()
    }

    constructor (files: Files, configPath: string, selfPath: string)
      ensures Valid() && fresh(disk) && disk.files == files
      ensures this.configPath == configPath && this.selfPath == selfPath
      ensures lastEffectiveConfigHash == NoDigest && fileContentHash == map[] && sent == []
    {
      disk := new Disk(files);
      this.configPath := configPath;
      this.selfPath := selfPath;
      lastEffectiveConfigHash := NoDigest;
      fileContentHash := map[];
      sent := [];
      sendFaults := 0;
    }

    /** Write the candidate beside the live config, validate it, rename it into place.
        Whatever fails and wherever it stops, the live file is entirely the old one or
        entirely a candidate that validated; an error means the old one, and has a cause. */
    method ValidateAndApply(body: Bytes) returns (ok: bool)
      requires Valid()
      modifies disk
      ensures Valid() && disk.Extends()
      ensures ContentOf(disk.files, configPath) == if ok then Some(body) else old(ContentOf(disk.files, configPath))
      ensures ok ==> body in disk.passed
      ensures !ok ==> disk.Hindered(body)
      ensures disk.faults == old(disk.faults) ==> configPath + ".tmp" !in disk.files
      ensures AllOrNothing(disk.history, |old(disk.history)|, configPath, old(ContentOf(disk.files, configPath)),
                           body, disk.passed)
      ensures forall other :: other != configPath && other != configPath + ".tmp" ==>
                ContentOf(disk.files, other) == old(ContentOf(disk.files, other))
    {
      var tmpPath := configPath + ".tmp";
      ok := disk.WriteFileSynced(tmpPath, body);
      if !ok {
        return;
      }
      ok := disk.Check(tmpPath);
      if ok {
        ok := disk.Rename(tmpPath, configPath);
      }
      disk.Remove(tmpPath);
    }

    /** The same for a pushed binary: stream it beside the live one while hashing, compare
        the hash, prove it runs, rename. `chunks` is what the download yields and
        `complete` whether it ended without an error. With the verdict it returns, this is
        the step `Rollout.TakePackage`. */
    method UpdateContent(packageName: string, chunks: seq<Bytes>, complete: bool, contentHash: Digest)
      returns (ok: bool)
      requires Valid() && selfPath in disk.files
      modifies disk, this`fileContentHash
      ensures Valid() && disk.Extends()
      ensures ok ==> complete && Sha256(Concat(chunks)) == contentHash && Concat(chunks) in disk.passed
      ensures !ok ==> !complete || Sha256(Concat(chunks)) != contentHash || disk.Hindered(Concat(chunks))
      ensures disk.faults == old(disk.faults) ==> selfPath + ".tmp" !in disk.files
      ensures ContentOf(disk.files, selfPath) == Some(if ok then Concat(chunks) else old(disk.files[selfPath]))
      ensures fileContentHash == if ok then old(fileContentHash)[packageName := contentHash] else old(fileContentHash)
      ensures AllOrNothing(disk.history, |old(disk.history)|, selfPath, Some(old(disk.files[selfPath])),
                           Concat(chunks), disk.passed)
      ensures forall other :: other != selfPath && other != selfPath + ".tmp" ==>
                ContentOf(disk.files, other) == old(ContentOf(disk.files, other))
      ensures forall a: Rollout.AgentState, repo: Rollout.Repo, r: PackageRef ::
                && a.binary == old(disk.files[selfPath]) && a.packageOffer == Some(r) && r.hash == contentHash
                && Rollout.Download(repo, (r.name, r.version)) == Some(Concat(chunks))
                ==> disk.files[selfPath] == Rollout.TakePackage(a, repo, ok).binary
    {
      var tmpPath := selfPath + ".tmp";
      ok := disk.Put(tmpPath, "");
      if !ok {
        return;
      }
      var gotHash;
      ok, gotHash := StreamTo(tmpPath, chunks, complete);
      ok := SwapIn(tmpPath, Concat(chunks), ok && gotHash == contentHash);
      if !ok {
        return;
      }
      fileContentHash := fileContentHash[packageName := gotHash];
    }

    /** The last part: a candidate that is the right one is checked and renamed, any other
        removed. */
    method SwapIn(tmpPath: string, ghost body: Bytes, right: bool) returns (ok: bool)
      requires Valid() && tmpPath != selfPath
      requires right ==> tmpPath in disk.files && disk.files[tmpPath] == body
      modifies disk
      ensures Valid() && disk.Extends()
      ensures ok ==> right && body in disk.passed
      ensures !ok ==> !right || disk.Hindered(body)
      ensures disk.faults == old(disk.faults) ==> tmpPath !in disk.files
      ensures ContentOf(disk.files, selfPath) == if ok then Some(body) else old(ContentOf(disk.files, selfPath))
      ensures AllOrNothing(disk.history, |old(disk.history)|, selfPath, old(ContentOf(disk.files, selfPath)), body,
                           disk.passed)
      ensures forall other :: other != selfPath && other != tmpPath ==>
                ContentOf(disk.files, other) == old(ContentOf(disk.files, other))
    {
      ok := right;
      if ok {
        ok := disk.Check(tmpPath);
      }
      if ok {
        ok := disk.Rename(tmpPath, selfPath);
      }
      if !ok {
        disk.Remove(tmpPath);
      }
    }

    /** io.Copy into the file and the hasher at once. */
    method StreamTo(path: string, chunks: seq<Bytes>, complete: bool) returns (ok: bool, hash: Digest)
      requires Valid() && path in disk.files && disk.files[path] == ""
      modifies disk`files, disk`history, disk`faults
      ensures Valid() && disk.Extends()
      ensures !ok ==> !complete || disk.faults > old(disk.faults)
      ensures ok ==> complete && hash == Sha256(Concat(chunks)) && disk.files == old(disk.files)[path := Concat(chunks)]
      ensures forall other :: other != path ==> ContentOf(disk.files, other) == old(ContentOf(disk.files, other))
      ensures forall other :: other != path ==>
                Untouched(disk.history, |old(disk.history)|, other, old(ContentOf(disk.files, other)))
    {
      hash := NoDigest;
      ok := true;
      var received := "";
      for i := 0 to |chunks|
        invariant Valid() && disk.Extends() && disk.faults == old(disk.faults)
        invariant received == Concat(chunks[..i]) && disk.files == old(disk.files)[path := received]
        invariant forall other :: other != path ==>
                    Untouched(disk.history, |old(disk.history)|, other, old(ContentOf(disk.files, other)))
      {
        assert chunks[..i + 1][..i] == chunks[..i];
        ok := disk.Put(path, received + chunks[i]);
        if !ok { return; }
        received := received + chunks[i];
      }
      assert chunks[..|chunks|] == chunks;
      hash := Sha256(received);
      if !complete { return false, hash; }
      ok := disk.Settle();
    }

    /** One answer per offer, and it tells the truth about the live file: the step
        `Rollout.TakeConfig` with the verdict the answer carries. The SIGTERM that follows
        a successful apply is the step `Rollout.Restart`. */
    method HandleRemoteConfig(file: Option<Bytes>) returns (ghost status: Status)
      requires Valid() && configPath in disk.files
      modifies disk, this`sent
      ensures Valid() && disk.Extends()
      ensures configPath in disk.files
      ensures sent == old(sent) + [HEARTBEAT.(configStatus := Some(status))]
      ensures status == Applied || status.Failed?
      ensures file.None? ==> status.Failed? && disk.files == old(disk.files)
      ensures status == Applied ==> file.value in disk.passed
      ensures status != Applied ==> file.None? || disk.Hindered(file.value)
      ensures forall a: Rollout.AgentState, r: ConfigRef ::
                a.live == old(disk.files[configPath]) && a.configOffer == Some(r) && file == Some(r.body)
                ==> disk.files[configPath] == Rollout.TakeConfig(a, status == Applied).live
    {
      if file.None? {
        status := Failed("no config file found in the pushed ConfigMap");
        ReportConfigStatus(Failed("no config file found in the pushed ConfigMap"));
        return;
      }
      var ok := ValidateAndApply(file.value);
      if !ok {
        status := Failed("rejected");
        ReportConfigStatus(Failed("rejected"));
        return;
      }
      status := Applied;
      ReportConfigStatus(Applied);
    }

    method ReportConfigStatus(status: Status)
      modifies this`sent
      ensures sent == old(sent) + [HEARTBEAT.(configStatus := Some(status))]
    {
      sent := sent + [HEARTBEAT.(configStatus := Some(status))];
    }

    /** checkEffectiveConfigDrift: report the file's content when its hash is news. When
        nothing fails, this is the step `Rollout.Tick`. */
    method CheckEffectiveConfigDrift() returns (ok: bool)
      requires Valid()
      modifies this`sent, this`lastEffectiveConfigHash, this`sendFaults
      ensures !ok ==> configPath !in disk.files || sendFaults > old(sendFaults)
      ensures !ok ==> sent == old(sent) && lastEffectiveConfigHash == old(lastEffectiveConfigHash)
      ensures ok ==>
                && configPath in disk.files
                && lastEffectiveConfigHash == Sha256(disk.files[configPath])
                && sent == old(sent) + (if old(lastEffectiveConfigHash) == lastEffectiveConfigHash then []
                                        else [HEARTBEAT.(effectiveConfig := Some(disk.files[configPath]))])
      ensures forall a: Rollout.AgentState ::
                ok && a.live == disk.files[configPath] && a.lastReported == old(lastEffectiveConfigHash) ==>
                  && Rollout.Tick(a).lastReported == lastEffectiveConfigHash
                  && |Rollout.Tick(a).reports| - |a.reports| == |sent| - |old(sent)|
    {
      if configPath !in disk.files {
        return false;
      }
      var hash := Sha256(disk.files[configPath]);
      if hash == lastEffectiveConfigHash {
        return true;
      }
      ok := *;
      if ok {
        sent := sent + [HEARTBEAT.(effectiveConfig := Some(disk.files[configPath]))];
        lastEffectiveConfigHash := hash;
      } else {
        sendFaults := sendFaults + 1;
      }
    }
  }
}

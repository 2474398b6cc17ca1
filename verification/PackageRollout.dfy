/**
 Package rollout over whole runs: whatever the interleaving of uploads, re-uploads,
 pushes, rollbacks and downloads, an agent only ever runs its original binary or the
 exact bytes of an upload the server recorded, offered and saw run.
 */
module PackageRollout {
  import opened Options
  import opened FleetRows
  import opened Rollout

  // --- What happened in a run

  /** The bytes of every upload recorded so far, under any name and version. */
  function Recorded(es: seq<Event>): set<Bytes> {
    if es == [] then {} else RecordedBy(Recorded(Front(es)), Last(es))
  }

  function RecordedBy(known: set<Bytes>, e: Event): set<Bytes> {
    if e.UploadRecorded? then known + {e.bytes} else known
  }

  /** The agent was offered the hash of these bytes, after they were recorded, and took
      the offer with a candidate that ran. */
  predicate WasInstalled(w: World, es: seq<Event>, id: string, bytes: Bytes)
    requires Legal(w, es)
  {
    es != [] &&
    (|| (&& Last(es) == AgentTakesPackage(id, true)
         && Run(w, Front(es)).agents[id].packageOffer.value.hash == Sha256(bytes)
         && bytes in Recorded(Front(es)))
     || WasInstalled(w, Front(es), id, bytes))
  }

  /** The bytes last renamed into place for a name and version. */
  function LastUpload(es: seq<Event>, key: Key): Option<Bytes> {
    if es == [] then None
    else if Last(es).UploadRenamed? && Last(es).key == key then Some(Last(es).bytes)
    else LastUpload(Front(es), key)
  }

  /** Another upload's temporary file has taken this name since: an upload of "1" is received
      under "1.tmp", which is the name of version "1.tmp". */
  predicate Disturbed(es: seq<Event>, key: Key) {
    es != [] && DisturbedBy(Disturbed(Front(es), key), Last(es), key)
  }

  predicate DisturbedBy(before: bool, e: Event, key: Key) {
    match e
    case UploadRenamed(k, _) => k != key && before
    case UploadStarted(u) => TempOf(u) == key || before
    case _ => before
  }

  /** What that other upload has left there. */
  function Leftover(es: seq<Event>, key: Key): Option<Bytes> {
    if es == [] then None else LeftBy(Leftover(Front(es), key), Last(es), key)
  }

  function LeftBy(before: Option<Bytes>, e: Event, key: Key): Option<Bytes> {
    match e
    case UploadStarted(u) => if TempOf(u) == key then Some("") else before
    case UploadReceived(u, bytes) => if TempOf(u) == key then Some(bytes) else before
    case UploadBroken(u, cleaned) => if TempOf(u) == key && cleaned then None else before
    case UploadRenamed(u, _) => if TempOf(u) == key then None else before
    case _ => before
  }

  /** What stands under a name and version. */
  function Served(es: seq<Event>, key: Key): Option<Bytes> {
    if Disturbed(es, key) then Leftover(es, key) else LastUpload(es, key)
  }

  // --- The invariant

  predicate KnownRef(r: PackageRef, repo: Repo, known: set<Bytes>) {
    || r == NO_PACKAGE
    || (r.version != "" && r.hash.Sha256? && r.hash.content in known && (r.name, r.version) in repo.hashes)
  }

  predicate HashesKnown(repo: Repo, known: set<Bytes>) {
    && (forall key :: key in repo.hashes ==>
          key.0 != "" && key.1 != "" && repo.hashes[key].Sha256? && repo.hashes[key].content in known)
    && (forall u :: u in repo.unrecorded ==> u.0.0 != "" && u.0.1 != "")
  }

  /** Every upload under way has its own temporary file, holding what has arrived. */
  predicate TempsHold(repo: Repo) {
    && (forall k :: k in repo.uploading ==>
          k.0 != "" && k.1 != "" && TempOf(k) in repo.files && repo.files[TempOf(k)] == repo.uploading[k])
    && (forall j, k :: j in repo.uploading && k in repo.uploading && j != k ==> !SharePath(j, k))
  }

  predicate PackageInv(s: Slots<PackageRef>, a: AgentState, repo: Repo, known: set<Bytes>) {
    && KnownRef(s.pending, repo, known) && KnownRef(s.lastGood, repo, known)
    && !(a.packageOffer.Some? && a.packageAck.Some?)
    && match a.packageAck {
         case Some(Applied) =>
           || (s.pending == NO_PACKAGE && s.lastGood == NO_PACKAGE)
           || (s.pending != NO_PACKAGE && Sha256(a.binary) == s.pending.hash)
         case _ => s.lastGood != NO_PACKAGE ==> Sha256(a.binary) == s.lastGood.hash
       }
    && match a.packageOffer {
         case None => true
         case Some(r) =>
           && r != NO_PACKAGE && KnownRef(r, repo, known)
           && (s.pending == r || (s.pending == NO_PACKAGE && s.lastGood == NO_PACKAGE))
       }
  }

  lemma TempIsInjective(a: Key, b: Key)
    ensures TempOf(a) == TempOf(b) <==> a == b
    ensures TempOf(a) != a
  {
    assert TempOf(a).1[..|a.1|] == a.1 && TempOf(b).1[..|b.1|] == b.1;
  }

  lemma TempsStep(repo: Repo, e: Event)
    requires IsUpload(e) && UploadEnabled(repo, e) && TempsHold(repo)
    ensures TempsHold(RepoAfter(repo, e))
  {
    hide TempOf;
    var after := RepoAfter(repo, e);
    forall k | k in after.uploading
      ensures k.0 != "" && k.1 != "" && TempOf(k) in after.files && after.files[TempOf(k)] == after.uploading[k]
    {
      TempIsInjective(k, e.key);
      TempIsInjective(e.key, k);
    }
    forall j, k | j in after.uploading && k in after.uploading && j != k ensures !SharePath(j, k) {
      if j in repo.uploading && k in repo.uploading { assert !SharePath(j, k); }
    }
  }

  lemma HashesStep(repo: Repo, e: Event, known: set<Bytes>)
    requires IsUpload(e) && UploadEnabled(repo, e) && HashesKnown(repo, known) && TempsHold(repo)
    ensures HashesKnown(RepoAfter(repo, e), RecordedBy(known, e))
  {
  }

  lemma KnownStays(r: PackageRef, w: World, e: Event, known: set<Bytes>)
    requires Enabled(w, e) && KnownRef(r, w.repo, known)
    ensures KnownRef(r, Step(w, e).repo, RecordedBy(known, e))
  {
    if !IsUpload(e) { UploadsOnly(w, e); }
  }

  /** Nothing but uploads changes the package store. */
  lemma UploadsOnly(w: World, e: Event)
    requires Enabled(w, e) && !IsUpload(e)
    ensures Step(w, e).repo == w.repo
  {
  }

  lemma RepoStep(w: World, e: Event, known: set<Bytes>)
    requires Enabled(w, e) && HashesKnown(w.repo, known) && TempsHold(w.repo)
    ensures HashesKnown(Step(w, e).repo, RecordedBy(known, e)) && TempsHold(Step(w, e).repo)
  {
    if IsUpload(e) {
      HashesStep(w.repo, e, known);
      TempsStep(w.repo, e);
    } else {
      UploadsOnly(w, e);
    }
  }

  lemma {:induction false} RepoInvariant(w: World, es: seq<Event>)
    requires Initial(w) && Legal(w, es)
    ensures HashesKnown(Run(w, es).repo, Recorded(es)) && TempsHold(Run(w, es).repo)
  {
    if es != [] {
      RepoInvariant(w, Front(es));
      RepoStep(Run(w, Front(es)), Last(es), Recorded(Front(es)));
    }
  }

  predicate ConcernsPackages(e: Event, id: string) {
    && (e.PushPackage? || e.RollbackPackage? || e.PackageOfferLost? || e.AgentTakesPackage?
        || e.ServerGetsPackageAck? || e.DeleteRow?)
    && e.id == id
  }

  lemma PackageFrame(w: World, e: Event, id: string)
    requires Enabled(w, e) && id in w.agents && !ConcernsPackages(e, id)
    ensures RowOf(Step(w, e).table, id).package == RowOf(w.table, id).package
    ensures var a, b := w.agents[id], Step(w, e).agents[id];
            b.binary == a.binary && b.packageOffer == a.packageOffer && b.packageAck == a.packageAck
  {
    if Received(w, e).Some? { ReceivedRow(w, e, id); }
  }

  lemma OfferPackageStep(w: World, e: Event, id: string, known: set<Bytes>)
    requires Enabled(w, e) && id in w.agents && (e.PushPackage? || e.RollbackPackage?) && e.id == id
    requires HashesKnown(w.repo, known)
    requires PackageInv(RowOf(w.table, id).package, w.agents[id], w.repo, known)
    ensures PackageInv(RowOf(Step(w, e).table, id).package, Step(w, e).agents[id], w.repo, known)
  {
  }

  lemma SettlePackageStep(w: World, e: Event, id: string, known: set<Bytes>)
    requires Enabled(w, e) && id in w.agents && ConcernsPackages(e, id) && !e.PushPackage? && !e.RollbackPackage?
    requires PackageInv(RowOf(w.table, id).package, w.agents[id], w.repo, known)
    ensures PackageInv(RowOf(Step(w, e).table, id).package, Step(w, e).agents[id], w.repo, known)
  {
    if e.ServerGetsPackageAck? { ReceivedRow(w, e, id); }
  }

  lemma NoPackageIsKnown(repo: Repo, known: set<Bytes>)
    ensures KnownRef(NO_PACKAGE, repo, known)
  {
  }

  lemma PackageStep(w: World, e: Event, id: string, known: set<Bytes>)
    requires Enabled(w, e) && id in w.agents
    requires HashesKnown(w.repo, known)
    requires PackageInv(RowOf(w.table, id).package, w.agents[id], w.repo, known)
    ensures PackageInv(RowOf(Step(w, e).table, id).package, Step(w, e).agents[id], Step(w, e).repo,
                       RecordedBy(known, e))
  {
    hide KnownRef, HashesKnown;
    if !ConcernsPackages(e, id) {
      PackageFrame(w, e, id);
      NoPackageIsKnown(w.repo, known);
      KnownStays(RowOf(w.table, id).package.pending, w, e, known);
      KnownStays(RowOf(w.table, id).package.lastGood, w, e, known);
      if w.agents[id].packageOffer.Some? { KnownStays(w.agents[id].packageOffer.value, w, e, known); }
    } else if e.PushPackage? || e.RollbackPackage? {
      OfferPackageStep(w, e, id, known);
    } else {
      SettlePackageStep(w, e, id, known);
    }
  }

  lemma {:induction false} PackageInvariant(w: World, es: seq<Event>, id: string)
    requires Initial(w) && Legal(w, es) && id in w.agents
    ensures PackageInv(RowOf(Run(w, es).table, id).package, Run(w, es).agents[id], Run(w, es).repo, Recorded(es))
  {
    if es != [] {
      PackageInvariant(w, Front(es), id);
      RepoInvariant(w, Front(es));
      PackageStep(Run(w, Front(es)), Last(es), id, Recorded(Front(es)));
    }
  }

  /** A delivered rollback offers the last-known-good package again and, whether or not it can be
      installed, leaves it the last-known-good one and the agent running its bytes. */
  lemma RollbackKeepsLastGood(w: World, es: seq<Event>, id: string, runs: bool)
    requires Initial(w) && Legal(w, es) && id in w.agents && PackageIdle(Run(w, es).agents[id])
    requires RowOf(Run(w, es).table, id).package.lastGood != NO_PACKAGE
    ensures var offered := es + [RollbackPackage(id, true)];
            && Legal(w, offered)
            && var good := RowOf(Run(w, es).table, id).package.lastGood;
            && Run(w, offered).agents[id].packageOffer == Some(good)
            && RowOf(Run(w, offered).table, id).package.pending == good
            && var taken := offered + [AgentTakesPackage(id, runs)];
            && Legal(w, taken) && Legal(w, taken + [ServerGetsPackageAck(id)])
            && var after := Run(w, taken + [ServerGetsPackageAck(id)]);
            && RowOf(after.table, id).package.lastGood == good && RowOf(after.table, id).package.pending == NO_PACKAGE
            && Sha256(after.agents[id].binary) == good.hash && PackageIdle(after.agents[id])
  {
    hide Step, PackageIdle, Enabled, Legal, Run, KnownRef;
    PackageInvariant(w, es, id);
    var good := RowOf(Run(w, es).table, id).package.lastGood;
    var offered := es + [RollbackPackage(id, true)];
    RollbackStepOffers(Run(w, es), id, Recorded(es));
    RunSnoc(w, es, RollbackPackage(id, true));
    var taken := offered + [AgentTakesPackage(id, runs)];
    TakeStepKeepsHash(Run(w, offered), id, runs, good);
    RunSnoc(w, offered, AgentTakesPackage(id, runs));
    AckStepKeeps(Run(w, taken), id, good);
    RunSnoc(w, taken, ServerGetsPackageAck(id));
  }

  lemma RollbackStepOffers(w: World, id: string, known: set<Bytes>)
    requires id in w.agents && PackageIdle(w.agents[id]) && RowOf(w.table, id).package.lastGood != NO_PACKAGE
    requires PackageInv(RowOf(w.table, id).package, w.agents[id], w.repo, known)
    ensures Enabled(w, RollbackPackage(id, true))
    ensures var good, after := RowOf(w.table, id).package.lastGood, Step(w, RollbackPackage(id, true));
            && RowOf(after.table, id).package == RowOf(w.table, id).package.Offer(good)
            && after.agents[id].packageOffer == Some(good) && after.agents[id].packageAck.None?
            && Sha256(after.agents[id].binary) == good.hash
  {
  }

  lemma TakeStepKeepsHash(w: World, id: string, runs: bool, good: PackageRef)
    requires id in w.agents && w.agents[id].packageOffer == Some(good) && w.agents[id].packageAck.None?
    requires Sha256(w.agents[id].binary) == good.hash
    ensures Enabled(w, AgentTakesPackage(id, runs))
    ensures var after := Step(w, AgentTakesPackage(id, runs));
            && after.table == w.table && Sha256(after.agents[id].binary) == good.hash
            && after.agents[id].packageOffer.None? && after.agents[id].packageAck.Some?
            && !after.agents[id].packageAck.value.InProgress?
  {
  }

  lemma AckStepKeeps(w: World, id: string, good: PackageRef)
    requires id in w.agents && w.agents[id].packageOffer.None? && w.agents[id].packageAck.Some?
    requires !w.agents[id].packageAck.value.InProgress?
    requires RowOf(w.table, id).package.lastGood == good && RowOf(w.table, id).package.pending == good
    ensures Enabled(w, ServerGetsPackageAck(id))
    ensures var after := Step(w, ServerGetsPackageAck(id));
            && RowOf(after.table, id).package.lastGood == good && RowOf(after.table, id).package.pending == NO_PACKAGE
            && after.agents[id].binary == w.agents[id].binary && PackageIdle(after.agents[id])
  {
    ReceivedRow(w, ServerGetsPackageAck(id), id);
  }

  /** The only step that changes an agent's binary. */
  lemma BinaryStep(w: World, e: Event, id: string)
    requires Enabled(w, e) && id in w.agents
    ensures var a, b := w.agents[id].binary, Step(w, e).agents[id].binary;
            a == b || (e == AgentTakesPackage(id, true) && w.agents[id].packageOffer.value.hash == Sha256(b))
  {
  }

  /** Agreement: whenever no package message is in flight and the agent has a
      last-known-good package, the hash recorded for it is the hash of the binary the
      agent actually has. */
  lemma PackageAgreement(w: World, es: seq<Event>, id: string)
    requires Initial(w) && Legal(w, es) && id in w.agents
    ensures var a, s := Run(w, es).agents[id], RowOf(Run(w, es).table, id).package;
            PackageIdle(a) && s.lastGood != NO_PACKAGE ==> s.lastGood.hash == Sha256(a.binary)
  {
    PackageInvariant(w, es, id);
  }

  /** Integrity, end to end. */
  lemma {:induction false} PackageIntegrity(w: World, es: seq<Event>, id: string)
    requires Initial(w) && Legal(w, es) && id in w.agents
    ensures var binary := Run(w, es).agents[id].binary;
            binary == w.agents[id].binary || WasInstalled(w, es, id, binary)
  {
    if es != [] {
      PackageIntegrity(w, Front(es), id);
      PackageInvariant(w, Front(es), id);
      BinaryStep(Run(w, Front(es)), Last(es), id);
    }
  }

  // --- What is served

  lemma StartedIsDisturbing(w: World, es: seq<Event>, u: Key)
    requires Initial(w) && Legal(w, es) && u in Run(w, es).repo.uploading
    ensures Disturbed(es, TempOf(u))
  {
    hide TempOf, Step;
    if es != [] {
      var before, e := Run(w, Front(es)), Last(es);
      RepoInvariant(w, Front(es));
      UploadingStep(before, e, u);
      if u in before.repo.uploading { StartedIsDisturbing(w, Front(es), u); }
    }
  }

  lemma UploadingStep(w: World, e: Event, u: Key)
    requires Enabled(w, e) && TempsHold(w.repo) && u in Step(w, e).repo.uploading
    ensures u in w.repo.uploading || e == UploadStarted(u)
    ensures u in w.repo.uploading && e.UploadRenamed? ==> e.key != TempOf(u)
  {
    if !IsUpload(e) { UploadsOnly(w, e); }
  }

  function FileAt(repo: Repo, key: Key): Option<Bytes> {
    if key in repo.files then Some(repo.files[key]) else None
  }

  /** What one event makes of what stands under a name. */
  lemma FileStep(w: World, e: Event, key: Key)
    requires Enabled(w, e) && TempsHold(w.repo)
    ensures FileAt(Step(w, e).repo, key) ==
            if e.UploadRenamed? && e.key == key then Some(e.bytes) else LeftBy(FileAt(w.repo, key), e, key)
  {
    hide TempOf;
    if !IsUpload(e) {
      UploadsOnly(w, e);
    } else {
      TempIsInjective(e.key, key);
    }
  }

  lemma NothingServed(key: Key)
    ensures FileAt(NO_PACKAGES, key) == None
  {
  }

  /** Over every run, the history alone says what stands under a name and version: the last
      upload renamed there or, if an upload received under this very name was started since,
      what that one has left: nothing once it is finished or cleaned up. */
  lemma {:induction false} FilesAreServed(w: World, es: seq<Event>, key: Key)
    requires Initial(w) && Legal(w, es)
    ensures FileAt(Run(w, es).repo, key) == Served(es, key)
  {
    hide TempOf, Step, RepoAfter, TempsHold, HashesKnown, FileAt, Enabled;
    if es == [] {
      NothingServed(key);
    } else {
      var before, e := Run(w, Front(es)), Last(es);
      FilesAreServed(w, Front(es), key);
      RepoInvariant(w, Front(es));
      FileStep(before, e, key);
      if (e.UploadReceived? || e.UploadBroken? || e.UploadRenamed?) && TempOf(e.key) == key {
        UploadUnderWay(before, e);
        StartedIsDisturbing(w, Front(es), e.key);
      }
    }
  }

  lemma UploadUnderWay(w: World, e: Event)
    requires Enabled(w, e) && (e.UploadReceived? || e.UploadBroken? || e.UploadRenamed?)
    ensures e.key in w.repo.uploading && TempOf(e.key) != e.key
  {
    TempIsInjective(e.key, e.key);
  }

  /** The last upload is still served exactly if no upload received under that name was started
      since -- or that one has left the very same bytes there. */
  lemma LastUploadIsKeptIff(w: World, es: seq<Event>, key: Key)
    requires Initial(w) && Legal(w, es) && LastUpload(es, key).Some?
    ensures FileAt(Run(w, es).repo, key) == LastUpload(es, key) <==>
            !Disturbed(es, key) || Leftover(es, key) == LastUpload(es, key)
    ensures key !in Run(w, es).repo.files <==> Disturbed(es, key) && Leftover(es, key).None?
  {
    FilesAreServed(w, es, key);
    if !Disturbed(es, key) { assert Served(es, key) == LastUpload(es, key); }
  }

  /** Only versions that end in ".tmp" can be disturbed. */
  lemma {:induction false} OrdinaryVersionsAreKept(es: seq<Event>, key: Key)
    requires !(|key.1| >= 4 && key.1[|key.1| - 4..] == ".tmp")
    ensures !Disturbed(es, key) && Served(es, key) == LastUpload(es, key)
  {
    if es != [] {
      OrdinaryVersionsAreKept(Front(es), key);
      if Last(es).UploadStarted? {
        var temp := TempOf(Last(es).key);
        assert temp.1[|temp.1| - 4..] == ".tmp";
      }
    }
  }

  /** An offer installs exactly when what is served under its name and version still are the
      bytes that were offered, and they run; then those bytes are the binary. A re-upload of
      other bytes between offer and download, or an upload received under that very name,
      therefore makes the install fail, and a failed install changes nothing. */
  lemma InstallsIffUploadIntact(w: World, es: seq<Event>, id: string, runs: bool)
    requires Initial(w) && Legal(w, es) && id in w.agents
    requires Run(w, es).agents[id].packageOffer.Some?
    ensures Legal(w, es + [AgentTakesPackage(id, runs)])
    ensures var before, after := Run(w, es).agents[id], Run(w, es + [AgentTakesPackage(id, runs)]).agents[id];
            var offer := before.packageOffer.value;
            && offer.hash.Sha256?
            && var intact := Served(es, (offer.name, offer.version)) == Some(offer.hash.content);
            && after.packageAck.Some?
            && (if intact && runs then after.packageAck.value == Applied else after.packageAck.value.Failed?)
            && after.binary == (if intact && runs then offer.hash.content else before.binary)
  {
    hide Served;
    RunSnoc(w, es, AgentTakesPackage(id, runs));
    PackageInvariant(w, es, id);
    var offer := Run(w, es).agents[id].packageOffer.value;
    FilesAreServed(w, es, (offer.name, offer.version));
  }

  // --- The name clash

  function Uploaded(repo: Repo, es: seq<Event>): Repo
    requires forall e :: e in es ==> IsUpload(e)
  {
    if es == [] then repo else RepoAfter(Uploaded(repo, es[..|es| - 1]), es[|es| - 1])
  }

  /** Each of these steps can happen after the ones before it. */
  predicate LegalUpload(repo: Repo, es: seq<Event>)
    requires forall e :: e in es ==> IsUpload(e)
  {
    es == [] || (LegalUpload(repo, es[..|es| - 1]) && UploadEnabled(Uploaded(repo, es[..|es| - 1]), es[|es| - 1]))
  }

  lemma NoStep(repo: Repo)
    ensures Uploaded(repo, []) == repo && LegalUpload(repo, [])
  {
  }

  lemma OneMoreStep(repo: Repo, es: seq<Event>, e: Event)
    requires IsUpload(e) && forall x :: x in es ==> IsUpload(x)
    ensures (forall x :: x in es + [e] ==> IsUpload(x)) && Uploaded(repo, es + [e]) == RepoAfter(Uploaded(repo, es), e)
    ensures LegalUpload(repo, es + [e]) <==> LegalUpload(repo, es) && UploadEnabled(Uploaded(repo, es), e)
  {
    assert (es + [e])[..|es|] == es;
  }

  lemma UploadStep(w: World, e: Event)
    requires IsUpload(e)
    ensures Enabled(w, e) <==> UploadEnabled(w.repo, e)
    ensures Enabled(w, e) ==> Step(w, e) == w.(repo := RepoAfter(w.repo, e))
  {
    hide UploadEnabled, RepoAfter;
  }

  /** Such steps extend any run that left this repository. */
  lemma {:induction false} UploadContinuesRun(w: World, es: seq<Event>, steps: seq<Event>)
    requires Legal(w, es) && (forall e :: e in steps ==> IsUpload(e)) && LegalUpload(Run(w, es).repo, steps)
    ensures Legal(w, es + steps)
    ensures Run(w, es + steps) == Run(w, es).(repo := Uploaded(Run(w, es).repo, steps))
  {
    hide UploadEnabled, RepoAfter, Enabled, Step;
    if steps == [] {
      assert es + steps == es;
    } else {
      var front, last := steps[..|steps| - 1], steps[|steps| - 1];
      UploadContinuesRun(w, es, front);
      UploadStep(Run(w, es + front), last);
      RunSnoc(w, es + front, last);
      assert es + front + [last] == es + steps;
    }
  }

  function UploadOf(key: Key, bytes: Bytes): seq<Event> {
    [UploadStarted(key), UploadReceived(key, bytes), UploadRenamed(key, bytes), UploadRecorded(key, bytes)]
  }

  /** One finished upload. */
  lemma WholeUpload(repo: Repo, key: Key, bytes: Bytes)
    ensures var after := Uploaded(repo, UploadOf(key, bytes));
            && after.files == (repo.files - {TempOf(key)})[key := bytes]
            && after.hashes == repo.hashes[key := Sha256(bytes)]
  {
    hide Uploaded, LegalUpload, UploadEnabled, TempOf;
    TempIsInjective(key, key);
    NoStep(repo);
    OneMoreStep(repo, [], UploadStarted(key));
    OneMoreStep(repo, [] + [UploadStarted(key)], UploadReceived(key, bytes));
    var received := [] + [UploadStarted(key)] + [UploadReceived(key, bytes)];
    OneMoreStep(repo, received, UploadRenamed(key, bytes));
    OneMoreStep(repo, received + [UploadRenamed(key, bytes)], UploadRecorded(key, bytes));
    assert received + [UploadRenamed(key, bytes)] + [UploadRecorded(key, bytes)] == UploadOf(key, bytes);
  }

  /** Uploading version "1" destroys version "1.tmp": its row still offers the hash, its file
      is gone, so an agent that was offered it cannot install it, although its last upload
      has not been replaced. */
  lemma TempNameClash(bytes: Bytes, other: Bytes)
    ensures var key := ("n", "1.tmp");
            var first := Uploaded(NO_PACKAGES, UploadOf(key, bytes));
            var both := Uploaded(first, UploadOf(("n", "1"), other));
            && Download(first, key) == Some(bytes) && Installs(first, PackageRef("n", "1.tmp", Sha256(bytes)), true)
            && key in both.hashes && both.hashes[key] == Sha256(bytes)
            && !Installs(both, PackageRef("n", "1.tmp", Sha256(bytes)), true)
  {
    hide Uploaded;
    var first := Uploaded(NO_PACKAGES, UploadOf(("n", "1.tmp"), bytes));
    WholeUpload(NO_PACKAGES, ("n", "1.tmp"), bytes);
    WholeUpload(first, ("n", "1"), other);
    assert "1" + ".tmp" == "1.tmp";
  }

  lemma UploadsKeepAgents(w: World, e: Event)
    requires IsUpload(e) && Enabled(w, e)
    ensures Step(w, e).agents == w.agents
  {
  }

  lemma StartedIsUnderWay(w: World, u: Key)
    requires CanStart(w.repo, u)
    ensures u in Step(w, UploadStarted(u)).repo.uploading
  {
  }

  /** The same at any point of any run: while a version named like the temporary file of u is
      on offer, merely starting and breaking off an upload of u makes its install fail. */
  lemma StartedUploadBreaksInstall(w: World, es: seq<Event>, id: string, u: Key)
    requires Initial(w) && Legal(w, es) && id in w.agents && CanStart(Run(w, es).repo, u)
    requires var offer := Run(w, es).agents[id].packageOffer;
             offer.Some? && (offer.value.name, offer.value.version) == TempOf(u)
    ensures var broken := es + [UploadStarted(u)] + [UploadBroken(u, true)];
            && Legal(w, broken) && Legal(w, broken + [AgentTakesPackage(id, true)])
            && LastUpload(broken, TempOf(u)) == LastUpload(es, TempOf(u))
            && var after := Run(w, broken + [AgentTakesPackage(id, true)]).agents[id];
            && after.packageAck.Some? && after.packageAck.value.Failed?
            && after.binary == Run(w, es).agents[id].binary
  {
    hide TempOf, Step, FileAt;
    UploadsKeepAgents(Run(w, es), UploadStarted(u));
    RunSnoc(w, es, UploadStarted(u));
    var started := es + [UploadStarted(u)];
    StartedIsUnderWay(Run(w, es), u);
    UploadsKeepAgents(Run(w, started), UploadBroken(u, true));
    RunSnoc(w, started, UploadBroken(u, true));
    var broken := started + [UploadBroken(u, true)];
    RunSnoc(w, broken, AgentTakesPackage(id, true));
    assert Disturbed(broken, TempOf(u)) by { assert Disturbed(started, TempOf(u)); }
    assert Leftover(broken, TempOf(u)) == None;
    InstallsIffUploadIntact(w, broken, id, true);
  }
}

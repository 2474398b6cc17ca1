# Verified model of Security Ginger Collect It All (sgcia)

A Dafny model of the parts of this repository where the logic is: the fleet server that rolls
configurations and packages out to collectors, the collector's status extension, and the terminal
config editor. `dafny verify dfyconfig.toml` checks all of it.

**Rollout protocol.** `FleetRows` holds one row of the server's table and the effect of every
statement on it; `FleetStore`, `Registry` and `FleetApi` are the server's mutable objects, each
method proved to compute those functions; `AgentHost` (on `FileSystem`) is the agent's half, with
every intermediate state of the disk on record. `Rollout` puts both into one step system: operator
pushes and rollbacks, delivered or lost offers, accepts and rejects, acknowledgements, hand edits,
report ticks, restarts, heartbeats, tagging, uploads, re-uploads and row deletions, for any number of agents.
`ConfigRollout`, `ConfigDrift` and `PackageRollout` prove what holds over every legal run;
`RowHistory` says what every run leaves in a row besides its slots. `RestartHistory` and `Tags` treat
the two list-valued columns, `PackagePaths` the names of uploaded files.

The step system makes explicit what the code relies on without checking it. A push waits until the
previous exchange with that agent is over, an upload until no other writes to the same paths, and an
acknowledgement is handled once: the server promotes whatever is pending and never compares the hash
an agent reports. One apply happens at a time on an agent, because its temporary path is fixed. A
report tick reads and reports one content. sha256 is injective, which the symbolic type `Digest`
expresses. `OverlappingPushes` drops the first assumption and states exactly when an agent still agrees with the server.

**Metrics.** `Attribution` is the closed form of the per-pipeline split and its conservation laws,
`PipelineSnapshots` the nested loops over Go maps that compute it in any visiting order, `Sankey` and
`Ribbons` the layout of the Topology view, `MetricsFlow` the whole way from counters to pixels, and
`RibbonFit` when the ribbons stay inside their boxes.
Floating point is exact here. `FiniteSums` and `RealArith` are the arithmetic behind it.

**Status extension.** `LogBuffer` shows that the ring buffer stands for a plain log; `Redaction`
treats redaction as a function on trees and in place on shared heap maps.

**Config editor.** `JsonTree` has the dotted paths, `Forms` and `FormEditing` the forms,
`EditorDocument` the document, `EditorModel` the fourteen screens as a state machine,
`EditorSessions` what every key sequence keeps, `EditorFlows` and `EditorEdits` what particular
sequences achieve, and `EditorApp` the object with its mutating handlers and the file it saves to.
`SavedPipelines` connects a submitted pipeline form to what the collector reads back. Forms are moved from screen to screen,
never shared, so they are values. Text inputs are arbitrary new texts that come with the key.

Where the code and its comments differ, the model follows the code: a column with more than 22 nodes
leaves the canvas although the layout is described as fitted to it; a form submit drops fields it
has no widget for although the document type promises that unknown fields survive; uploading a
version can destroy the version named like its temporary file although uploads are described as
atomic; clearing a text field that has a default brings the default back at the next load and submit.

## Model

| member | source | states |
|---|---|---|
| `FleetRows.HandleMessageEffect` | fleet/sgcia-fleet-server/opampserver.go:198-287 | One agent message changes the sender's row only, creating it if need be; each part of the message changes its own columns, and several package statuses act on the package slots one after another. |
| `FleetRows.SettlePackagesEffect` | fleet/sgcia-fleet-server/opampserver.go:267-286 | A list of package statuses folds into the package slots in order: every Installed promotes whatever is pending then, every failure clears it. |
| `FleetStore.Store.DeleteAgent` | fleet/sgcia-fleet-server/store.go:212-222 | The row goes, all others stay; the answer says whether it was there. |
| `FleetStore.Store.UpsertAgentDescription` | fleet/sgcia-fleet-server/store.go:226-239 | Creates the row or updates hostname, service version and local address, leaving every slot alone. |
| `FleetStore.Store.SetPendingConfig` | fleet/sgcia-fleet-server/store.go:395-402 | Fills the pending config slot with its hash, creating the row if needed; the last-known-good slot stays. |
| `FleetStore.Store.PromoteToLastKnownGood` | fleet/sgcia-fleet-server/store.go:408-418 | Moves whatever is pending to last-known-good, clears the pending slot and the error; does nothing without a row. |
| `FleetStore.Store.RecordConfigFailure` | fleet/sgcia-fleet-server/store.go:424-433 | Clears the pending config, keeps last-known-good, stores the error. |
| `FleetStore.Store.SetPendingPackage` | fleet/sgcia-fleet-server/store.go:492-500 | The same offer transition for packages. |
| `FleetStore.Store.PromotePackageToLastKnownGood` | fleet/sgcia-fleet-server/store.go:506-517 | The same promotion for packages. |
| `FleetStore.Store.RecordPackageFailure` | fleet/sgcia-fleet-server/store.go:523-533 | The same failure for packages. |
| `FleetStore.Store.RecordStartedAt` | fleet/sgcia-fleet-server/store.go:545-572 | Equal start times change nothing, the first one is a baseline, any other is appended to the capped history. |
| `FleetStore.Store.SetEffectiveConfigHash` | fleet/sgcia-fleet-server/store.go:579-585 | Records the reported hash, creating the row if needed. |
| `FleetStore.Store.Scan` | fleet/sgcia-fleet-server/store.go:301-345 | The derived fields of a row: parsed lists, recent restarts, the flapping and the drift flag. |
| `FleetStore.Store.ListAgents` | fleet/sgcia-fleet-server/store.go:276-345 | Every row once, by hostname and then id. |
| `StringOrder.StringLeIff` | fleet/sgcia-fleet-server/store.go:277 | The order of ids and hostnames: a prefix first, otherwise the first differing character decides. |
| `FleetStore.TagsReadBack` | fleet/sgcia-fleet-server/store.go:385-391 | After tags are set every reader sees exactly those tags; every other column and every other row is as it was. |
| `FleetStore.ViewCountsRestarts` | fleet/sgcia-fleet-server/store.go:324-332 | The recent count is the number of stored restarts of the last ten minutes; three of them are flapping. |
| `Tags.RefusedIff` | fleet/sgcia-fleet-server/api.go:371-391 | A tag request is refused exactly when some cleaned tag contains the storage delimiter. |
| `Tags.NormalizedMeaning` | fleet/sgcia-fleet-server/api.go:371-391 | What is accepted: the distinct non-blank cleaned tags, each once, none with a comma. |
| `Tags.NormalizedKeepsOrder` | fleet/sgcia-fleet-server/api.go:364-395 | Accepted tags stand in the order in which each was first given. |
| `Text.TrimCutsBlanks` | fleet/sgcia-fleet-server/api.go:364-395 | Trimming cuts off blank ends and leaves none. |
| `Text.NonEmptyDrops` | fleet/sgcia-fleet-server/store.go:347-375 | Reading a stored list drops the empty parts and nothing else. |
| `Tags.TagsSurviveStorage` | fleet/sgcia-fleet-server/store.go:364-391 | Joining and parsing the column gives the accepted tags, in order. |
| `RestartHistory.ObserveAppends` | fleet/sgcia-fleet-server/store.go:545-572 | One more restart is one more entry of the parsed, capped list. |
| `RestartHistory.HistoryIsLastChanges` | fleet/sgcia-fleet-server/store.go:545-572 | After any reports without commas, the stored CSV parses to the last ten reports that differ from their predecessor, the first one excluded. |
| `RestartHistory.ChangesAreAt` | fleet/sgcia-fleet-server/store.go:545-562 | The changes stand at exactly the positions where a report differs from the one before it. |
| `RestartHistory.RecentCountOfCapped` | fleet/sgcia-fleet-server/store.go:324-332 | For a chronological history, capping it caps its recent count and changes it in no other way. |
| `RestartHistory.CappedVerdictIsExact` | fleet/sgcia-fleet-server/store.go:324-332 | For non-decreasing times the stored list gives the flapping verdict of the unbounded history, and recent count = min(10, true count). |
| `Registry.ConnRegistry.Register` | fleet/sgcia-fleet-server/opampserver.go:55-59 | The id now maps to this connection, other ids as before. |
| `Registry.ConnRegistry.Unregister` | fleet/sgcia-fleet-server/opampserver.go:64-73 | One entry held by the closing connection goes, whichever the map scan meets first; nothing changes if none holds it. |
| `Registry.EntryIsLatest` | fleet/sgcia-fleet-server/opampserver.go:55-80 | With no assumption at all: an entry is only ever the connection of the latest message, and a late close of a superseded connection never removes its successor. |
| `Registry.TracksIff` | fleet/sgcia-fleet-server/opampserver.go:55-80 | At every moment and for every id, get(id) is the connection of the latest message unless that one has closed -- exactly if no connection is closed while it is the live one of two agents. |
| `Registry.RegistryTracksConnections` | fleet/sgcia-fleet-server/opampserver.go:178-196 | In particular, if every connection speaks for one agent, get(id) is the connection of the latest message for id unless that one has closed, and then nothing. |
| `Registry.SharedConnectionLeaks` | fleet/sgcia-fleet-server/opampserver.go:64-73 | A run that breaks it: a connection that spoke for two agents leaves an entry behind when it closes, whichever the scan meets first. |
| `FleetApi.TaggedKeepsOrder` | fleet/sgcia-fleet-server/api.go:128-139 | The tag filter is an order-preserving subsequence: its result stands at increasing positions, which are exactly those of the tagged agents. |
| `FleetApi.FleetServer.PushConfigToAgent` | fleet/sgcia-fleet-server/api.go:210-215 | Pending is recorded first, whether or not the agent is connected; the message goes to the agent's registered connection only. |
| `FleetApi.FleetServer.HandlePushConfig` | fleet/sgcia-fleet-server/api.go:221-252 | Blank or non-YAML bodies are refused without any effect; otherwise the body and its own hash become pending. |
| `FleetApi.FleetServer.HandleRollback` | fleet/sgcia-fleet-server/api.go:257-292 | Re-offers the last-known-good config, as the protocol's rollback step does; refused exactly when there is none. |
| `FleetApi.FleetServer.HandleBulkPushConfig` | fleet/sgcia-fleet-server/api.go:300-354 | Exactly the agents carrying the tag get the config as pending, with one result for each of them in listing order, and exactly the delivered ones get a message, in that order; refused requests change nothing. |
| `FleetApi.BulkOfferedExactly` | fleet/sgcia-fleet-server/api.go:330-350 | Pushing to the filtered agents one after another equals one update of exactly the tagged rows. |
| `FleetApi.FleetServer.HandleSetTags` | fleet/sgcia-fleet-server/api.go:364-395 | The cleaned tags replace the stored ones, or nothing changes; `FleetStore.TagsReadBack` says that no other column or row does. |
| `FleetApi.FleetServer.HandleDeleteAgent` | fleet/sgcia-fleet-server/api.go:401-413 | Deletes the row and nothing else; not found exactly if there was none. |
| `FleetApi.FleetServer.HandleUploadPackage` | fleet/sgcia-fleet-server/api.go:424-479 | Whatever interrupts it, files and recorded hashes are what the steps of the protocol make of them, each allowed after the one before if no other upload shares a path: only the temporary file before the rename, only the version after it, the row last and possibly never. |
| `PackagePaths.SafeIffOneLevelDown` | fleet/sgcia-fleet-server/api.go:176-183 | Accepted names are exactly those that lead one level down, to that very name, wherever they are taken. |
| `FleetApi.FleetServer.HandleDownloadPackage` | fleet/sgcia-fleet-server/api.go:507-552 | Serves the current bytes of a recorded package, as the protocol's download does, and nothing without the shared token or for unsafe names. |
| `FleetApi.FleetServer.HandlePushPackage` | fleet/sgcia-fleet-server/api.go:585-626 | Offers the recorded hash of the named package; unknown packages are refused without effect. |
| `FleetApi.FleetServer.HandleRollbackPackage` | fleet/sgcia-fleet-server/api.go:632-668 | Re-offers the last-known-good package, as the protocol's step does; refused exactly when there is none. |
| `FleetApi.FleetServer.HandleAgentMessage` | fleet/sgcia-fleet-server/opampserver.go:198-287 | The sequence of store updates computes the message function of the protocol model. |
| `FleetApi.FleetServer.OnMessage` | fleet/sgcia-fleet-server/opampserver.go:178-189 | Every message registers its connection before it is handled. |
| `FleetApi.FleetServer.OnConnectionClose` | fleet/sgcia-fleet-server/opampserver.go:190-196 | A close only unregisters. |
| `Rollout.Run` | fleet/sgcia-fleet-server/opampserver.go:198-287 | The step system over all legal event lists; no step adds or removes an agent. |
| `Rollout.ReceivedRow` | fleet/sgcia-fleet-server/opampserver.go:198-287 | Across a step in which the server handles a message, other rows stay and the sender's slots and hash change as its message says. |
| `RowHistory.RowIsHistory` | fleet/sgcia-fleet-server/store.go:385-433 | Over every run: description, tags, restart record and both errors are what the last event that sets them left, since the row was last deleted; tagging, pushes and reports disturb none of the others. |
| `RowHistory.ListingShowsHistory` | fleet/sgcia-fleet-server/store.go:276-345 | In every reachable state the listing shows the last ten changes of the start times reported and the tags last set. |
| `ConfigRollout.ConfigInvariant` | fleet/sgcia-fleet-server/store.go:395-433 | The inductive invariant of one agent's slots, live file and messages, over every run. |
| `ConfigRollout.ConfigAgreement` | otelcol/extensions/statuscfgextension/opamp.go:335-360 | Whenever nothing is in flight and last-known-good is non-empty, the agent's live file is that config, unless it was edited by hand since the last accepted push. |
| `ConfigRollout.StoredHashesMatch` | fleet/sgcia-fleet-server/store.go:395-433 | In every reachable store each pending and last-known-good config is empty or stored with its own hash. |
| `ConfigRollout.LastGoodStep` | fleet/sgcia-fleet-server/store.go:395-433 | The last-known-good slot changes only when an Applied acknowledgement is handled, to what was pending, or when the row is deleted; no failure, push or rollback writes it. |
| `ConfigRollout.LastGoodWasPending` | fleet/sgcia-fleet-server/store.go:408-418 | Every last-known-good config was that agent's pending config earlier in the run. |
| `ConfigRollout.RejectionChangesNothing` | otelcol/extensions/statuscfgextension/opamp.go:349-353 | A rejected push leaves the live file and last-known-good and clears pending. |
| `ConfigRollout.RollbackRestores` | fleet/sgcia-fleet-server/api.go:257-292 | An accepted rollback restores the last-known-good content and keeps it as such. |
| `ConfigRollout.OverlappingPushBreaksAgreement` | fleet/sgcia-fleet-server/opampserver.go:253-257 | Without the one-push-in-flight assumption agreement fails: the concrete overlapping run that promotes a config the agent never took. |
| `OverlappingPushes.Invariant` | fleet/sgcia-fleet-server/opampserver.go:253-265 | The inductive invariant of slots, live file and queued offers and answers, over every run with pushes at any time. |
| `OverlappingPushes.AgreementIffAnswerMatched` | fleet/sgcia-fleet-server/opampserver.go:253-257 | With pushes at any time: while no acceptance is on its way and a last-known-good config exists, the unedited live file is that config exactly if the answer that last promoted one named the hash then pending, the comparison the server does not make. |
| `OverlappingPushes.OrderlyPushesMatch` | fleet/sgcia-fleet-server/opampserver.go:253-257 | If every push waits until nothing is in flight, that answer always matched. |
| `ConfigRollout.RepeatedAckErasesLastGood` | fleet/sgcia-fleet-server/store.go:408-418 | An acknowledgement handled twice erases last-known-good, whatever the row held. |
| `ConfigRollout.LastGoodSurvivesIff` | fleet/sgcia-fleet-server/opampserver.go:253-265 | A message keeps a last-known-good config exactly when it does not promote an empty pending slot. |
| `ConfigDrift.ReportInvariant` | otelcol/extensions/statuscfgextension/opamp.go:292-306 | Over every run, what the agent last reported, at a tick or a start, is in its row or still on the way, unless the row was deleted; a remembered hash is its. |
| `ConfigDrift.DriftIsExact` | fleet/sgcia-fleet-server/store.go:334-337 | Whenever the live file is what was last reported, that report is recorded and the row not deleted since, the drift flag is up exactly when last-known-good exists and the live file differs from it and from pending. |
| `ConfigDrift.FlagShowsLastReport` | fleet/sgcia-fleet-server/store.go:334-337 | At every point of every run the flag is up exactly if the last report received since the row was deleted, if any, is neither last-known-good nor pending. |
| `ConfigDrift.NoDriftWithoutHandEdit` | fleet/sgcia-fleet-server/store.go:334-337 | At such points of runs without hand edits since the last accepted push, no drift is shown. |
| `ConfigDrift.TickMakesFreshIff` | otelcol/extensions/statuscfgextension/opamp.go:292-306 | A report tick whose reports arrive makes the picture fresh, except exactly when the row was deleted after the current content had been reported. |
| `ConfigDrift.RestartMakesFresh` | otelcol/extensions/statuscfgextension/opamp.go:355-359 | After a restart whose reports arrive, as follows every accepted push, the picture is fresh without exception. |
| `PackageRollout.PackageInvariant` | fleet/sgcia-fleet-server/store.go:492-533 | The inductive invariant of the package slots, binary and messages, over every run with any uploads. |
| `PackageRollout.PackageAgreement` | fleet/sgcia-fleet-server/opampserver.go:267-286 | Whenever no package message is in flight, the last-known-good hash is the hash of the agent's actual binary. |
| `PackageRollout.RollbackKeepsLastGood` | fleet/sgcia-fleet-server/api.go:632-668 | A delivered package rollback offers the last-known-good package and, installed or not, leaves it last-known-good and running. |
| `PackageRollout.PackageIntegrity` | otelcol/extensions/statuscfgextension/opamp.go:477-520 | End to end: the live binary is the original one or the exact bytes of a recorded upload whose hash was offered and that passed the start check. |
| `PackageRollout.FilesAreServed` | fleet/sgcia-fleet-server/api.go:440-466 | Over every run, the history says what stands under a name and version: the last upload renamed there or, if an upload received under that very name was started since, what that one has left. |
| `PackageRollout.LastUploadIsKeptIff` | fleet/sgcia-fleet-server/api.go:440-466 | The last upload is still served exactly if no upload received under its name was started since, or that one has left the same bytes; the file is gone exactly if one was and has left nothing. |
| `PackageRollout.OrdinaryVersionsAreKept` | fleet/sgcia-fleet-server/api.go:440-466 | A version that does not end in .tmp is always served as last uploaded. |
| `PackageRollout.InstallsIffUploadIntact` | otelcol/extensions/statuscfgextension/opamp.go:477-520 | An offer installs exactly when what stands under its name and version still are the offered bytes and they pass the start check; otherwise it fails and changes nothing. |
| `PackageRollout.UploadContinuesRun` | fleet/sgcia-fleet-server/api.go:424-479 | Upload steps allowed one after another continue any run that left their repository, so what holds of all runs holds of the handler. |
| `PackageRollout.TempNameClash` | fleet/sgcia-fleet-server/api.go:440-466 | The input that destroys a version: after uploading version 1, version 1.tmp is still recorded but cannot be installed. |
| `PackageRollout.StartedUploadBreaksInstall` | fleet/sgcia-fleet-server/api.go:440-452 | At any point of any run, starting and breaking off an upload whose temporary file has the name of an offered version makes its install fail. |
| `FileSystem.Disk.WriteFileSynced` | otelcol/extensions/statuscfgextension/opamp.go:611-621 | Writes piece by piece; no other file is touched in any intermediate state. |
| `AgentHost.Agent.ValidateAndApply` | otelcol/extensions/statuscfgextension/opamp.go:573-594 | Stopped after any file operation, the live config is entirely old or entirely a body that validated; an error means it is unchanged, and that an operation failed or the body was refused; no temporary file is left unless one did. |
| `AgentHost.Agent.UpdateContent` | otelcol/extensions/statuscfgextension/opamp.go:477-520 | The same for the binary; success needs a complete download with the offered hash that passed the start check; and failure an incomplete download, another hash, a failed operation or a refused start; the binary changes as the protocol step with that verdict. |
| `AgentHost.Agent.HandleRemoteConfig` | otelcol/extensions/statuscfgextension/opamp.go:335-360 | One truthful status per offer, a failure only with a cause; the live file changes as the protocol step with that verdict. |
| `AgentHost.Agent.CheckEffectiveConfigDrift` | otelcol/extensions/statuscfgextension/opamp.go:292-306 | Reports exactly when the file's hash is news, and then remembers it; a failed report is retried at the next tick. |
| `LogBuffer.LogBuffer.Push` | otelcol/extensions/statuscfgextension/logbuffer.go:41-53 | A batch of any length is appended to the log the ring stands for. |
| `LogBuffer.LogBuffer.Clear` | otelcol/extensions/statuscfgextension/logbuffer.go:56-62 | The log becomes empty. |
| `LogBuffer.LogBuffer.Snapshot` | otelcol/extensions/statuscfgextension/logbuffer.go:73-103 | The last 500 entries since the last clear, oldest first; with filters, those of them that meet all filters. |
| `LogBuffer.SelectedIsSubsequence` | otelcol/extensions/statuscfgextension/logbuffer.go:86-101 | A filtered view is exactly the order-preserving subsequence meeting the filter. |
| `LogBuffer.MeetsIff` | otelcol/extensions/statuscfgextension/logbuffer.go:86-101 | An entry meets the filters that are set: its severity, an attribute of its own or of its resource, and the query in its body or in any key or value. |
| `LogBuffer.Unrolled` | otelcol/extensions/statuscfgextension/logbuffer.go:77-84 | Reading a full ring around from its next slot gives the last entries in push order. |
| `LogBuffer.MapContains` | otelcol/extensions/statuscfgextension/logbuffer.go:105-112 | Some key or value contains the query, whatever order the map is visited in. |
| `Redaction.RedactsEqualIff` | otelcol/extensions/statuscfgextension/resolvedconfig.go:107-129 | Two trees redact alike exactly when they differ at most under the five secret names, in any case of letters, at any depth, through lists. |
| `Redaction.RedactedIsClean` | otelcol/extensions/statuscfgextension/resolvedconfig.go:107-129 | Nothing secret is left: under token, password, secret, api_key and apikey, however written and however deep, stands the marker. |
| `Redaction.CleanIsKept` | otelcol/extensions/statuscfgextension/resolvedconfig.go:107-129 | A tree with nothing secret left is not changed. |
| `Redaction.RedactKeepsTheRest` | otelcol/extensions/statuscfgextension/resolvedconfig.go:107-129 | Everything not under a secret name keeps its shape and value. |
| `Redaction.RedactTwice` | otelcol/extensions/statuscfgextension/resolvedconfig.go:107-129 | Redacting twice changes nothing. |
| `Redaction.RedactInPlace` | otelcol/extensions/statuscfgextension/resolvedconfig.go:114-129 | The in-place recursion over heap maps, shared ones included, leaves the redacted tree: nothing secret left, everything else as it was. |
| `PipelineSnapshots.ComputePipelineSnapshots` | otelcol/extensions/statuscfgextension/extension.go:182-224 | Whatever order the maps are visited in, the loops compute for every pipeline its receivers' count and the whole numbers nearest to its weighted parts, of two equally near the one further from zero. |
| `PipelineSnapshots.CollectUsers` | otelcol/extensions/statuscfgextension/extension.go:194-199 | Every exporter's users, once per listing. |
| `Attribution.SharesTotalOne` | otelcol/extensions/statuscfgextension/extension.go:201-210 | The shares of one exporter, once per listing, add up to one. |
| `Attribution.SharesAreProportional` | otelcol/extensions/statuscfgextension/extension.go:201-210 | Once a user of an exporter has input, the shares of any two pipelines are in the ratio of their inputs. |
| `Attribution.IdleSharesAreEven` | otelcol/extensions/statuscfgextension/extension.go:201-210 | While no user has input, every listing has the same share. |
| `Attribution.RoundIsNearest` | otelcol/extensions/statuscfgextension/extension.go:216-223 | Rounding gives the nearest whole number and, half-way, the one further from zero. |
| `Attribution.CountAllAdds` | otelcol/extensions/statuscfgextension/extension.go:165-181 | Counters add up over a list in any grouping, each listing once, a missing one as zero. |
| `Attribution.OccursIsMultiplicity` | otelcol/extensions/statuscfgextension/extension.go:192-199 | A listing counts as often as it stands in the list. |
| `Attribution.SplitConserves` | otelcol/extensions/statuscfgextension/extension.go:192-214 | For every topology and counters, duplicate listings included, the unrounded parts of all pipelines add up to the counters of the exporters that have a user. |
| `Attribution.RoundedTotalIsClose` | otelcol/extensions/statuscfgextension/extension.go:216-223 | Whatever whole numbers nearest to the parts are reported, their total is off by at most half an event per pipeline. |
| `Attribution.UnsharedIsExact` | otelcol/extensions/statuscfgextension/extension.go:165-181 | A pipeline whose exporters nobody else lists gets exactly their totals. |
| `Attribution.IdleGetsNothing` | otelcol/extensions/statuscfgextension/extension.go:165-181 | A pipeline without input gets nothing of exporters that also serve one with input. |
| `Attribution.SplitIsWeightedSum` | otelcol/extensions/statuscfgextension/extension.go:201-214 | The closed form in ordinary products: of each used exporter, its counter times the share per listing times the listings. |
| `Attribution.NeverOvercounts` | otelcol/extensions/statuscfgextension/extension.go:165-181 | No pipeline is credited more than its exporters' whole totals, nor less than nothing. |
| `Sankey.LayoutColumn` | otelcol/extensions/statuscfgextension/webui-react/src/sankey.js:86-95 | Boxes in list order, each exactly NODE_GAP below the one before, the column in the middle of the canvas. |
| `Sankey.ColumnFitsIff` | otelcol/extensions/statuscfgextension/webui-react/src/sankey.js:86-95 | A column is on the canvas exactly when its content is no higher, and then leaves the same space above and below. |
| `Sankey.ReservedFitsIff` | otelcol/extensions/statuscfgextension/webui-react/src/sankey.js:36-44 | Boxes and gaps alone fit the highest canvas exactly up to 22 boxes. |
| `Sankey.TrafficFits` | otelcol/extensions/statuscfgextension/webui-react/src/sankey.js:139-146 | Up to 22 boxes, the shared scale makes every column fit the canvas, whatever the flows. |
| `Sankey.BoxesFitIff` | otelcol/extensions/statuscfgextension/webui-react/src/sankey.js:139-150 | For all flows, every box of all three columns is on the canvas exactly when no column has more than 22 boxes. |
| `Sankey.FullestColumnFills` | otelcol/extensions/statuscfgextension/webui-react/src/sankey.js:139-146 | The column with the most boxes and the most traffic fills the canvas exactly. |
| `Sankey.SizesFollowContent` | otelcol/extensions/statuscfgextension/webui-react/src/sankey.js:36-81 | A box is 72 high up to four in the fullest column and 22 from fourteen on; the canvas takes boxes, gaps and half a pixel an event, between 160 and 720. |
| `Sankey.ScaleIsNominalIff` | otelcol/extensions/statuscfgextension/webui-react/src/sankey.js:77-81 | An event is PX_PER_EVENT high exactly between the height clamps, and less exactly beyond the upper one. |
| `Ribbons.IndexIsLast` | otelcol/extensions/statuscfgextension/webui-react/src/sankey.js:152-155 | An id names the last box that carries it: exporters win over pipelines, pipelines over receivers. |
| `Ribbons.PlaceLinks` | otelcol/extensions/statuscfgextension/webui-react/src/sankey.js:197-210 | The cursor loops place every ribbon at its closed-form position. |
| `Ribbons.RibbonsAreConsecutive` | otelcol/extensions/statuscfgextension/webui-react/src/sankey.js:204-210 | The next ribbon into the same box begins exactly where this one ends. |
| `Ribbons.RibbonsAreDisjoint` | otelcol/extensions/statuscfgextension/webui-react/src/sankey.js:204-210 | Ribbons into one box never overlap and lie in edge order. |
| `Ribbons.RibbonsFitIff` | otelcol/extensions/statuscfgextension/webui-react/src/sankey.js:189-210 | The ribbons into a box lie inside it exactly when their total width is at most its height, and are then centred. |
| `Ribbons.ComputeSankeyLayout` | otelcol/extensions/statuscfgextension/webui-react/src/sankey.js:105-213 | Nothing exactly for a graph without nodes; otherwise the stacked columns on the shared scale and the placed ribbons. |
| `MetricsFlow.BuildTopology` | otelcol/extensions/statuscfgextension/topology.go:30-46 | Every configured component and pipeline once, and one edge per listing. |
| `MetricsFlow.EdgesAreListings` | otelcol/extensions/statuscfgextension/topology.go:30-46 | An edge is drawn exactly if some pipeline lists its source as a receiver or its target as an exporter. |
| `MetricsFlow.OneEdgePerListing` | otelcol/extensions/statuscfgextension/topology.go:30-46 | One edge per listing, in the order of the listings. |
| `MetricsFlow.BuildStatus` | otelcol/extensions/statuscfgextension/extension.go:101-149 | The events_in of every component; a pipeline's is the sum over its receivers. |
| `MetricsFlow.ExportersShowWhatPipelinesGet` | otelcol/extensions/statuscfgextension/extension.go:101-149 | What the exporters show, sent and failed together, is what the unrounded parts of all pipelines add up to. |
| `MetricsFlow.DrawTopology` | otelcol/extensions/statuscfgextension/webui-react/src/sankey.js:105-213 | From configuration and counters to a drawing, for every configuration that names anything. |
| `RibbonFit.DrawnIsValid` | otelcol/extensions/statuscfgextension/webui-react/src/sankey.js:105-213 | Every drawing made from a configuration and counters is one the results below are about. |
| `RibbonFit.WidthIntoPipeline` | otelcol/extensions/statuscfgextension/webui-react/src/sankey.js:183-203 | Counters to pixels: what is drawn into a pipeline whose id no exporter has is wider than its box is high by exactly the surplus of the least widths over the least box height. |
| `RibbonFit.InboundRibbonsFitIff` | otelcol/extensions/statuscfgextension/webui-react/src/sankey.js:185-210 | Whatever the counters, every ribbon into such a pipeline lies inside its box exactly if that surplus is at most the least box height. |
| `RibbonFit.ConfiguredReceiversFitIff` | otelcol/extensions/statuscfgextension/webui-react/src/sankey.js:183-210 | With configured receivers the surplus is what their traffic falls short of two pixels each, so the ribbons fit exactly if that adds up to at most the least box height. |
| `RibbonFit.IdlePipelineFitsIff` | otelcol/extensions/statuscfgextension/webui-react/src/sankey.js:179-210 | A pipeline without traffic fits exactly up to half as many listings as the least box is high: fourteen idle receivers do not fit 22 pixels. |
| `RibbonFit.InboundRibbonsFit` | otelcol/extensions/statuscfgextension/webui-react/src/sankey.js:185-210 | Whatever the counters, every ribbon into a pipeline lies inside its box if it lists at most nodeH/2 receivers (eleven always do) and no exporter shares its id. |
| `RibbonFit.SharedIdOverflows` | otelcol/extensions/statuscfgextension/webui-react/src/sankey.js:152-155 | The id condition is needed: with an exporter of the same id, one receiver's ribbon is 500 wide in a box 72 high and sticks out of it. |
| `RibbonFit.RibbonsStartInside` | otelcol/extensions/statuscfgextension/webui-react/src/sankey.js:179-212 | If components of different kinds have different ids, every ribbon leaves the right edge of its source at mid-height and is no wider than the source is high. |
| `RibbonFit.LinkCarriesItsSource` | otelcol/extensions/statuscfgextension/webui-react/src/sankey.js:165-212 | With ids that differ, a link carries all that flows through its source and is as wide as that; only an exported id that is a pipeline's gets nothing. It ends at its target's left edge. |
| `RibbonFit.ColumnsSpread` | otelcol/extensions/statuscfgextension/webui-react/src/sankey.js:147-150 | Receivers stand at the left edge of the canvas, exporters at the right one, pipelines in the middle. |
| `JsonTree.WalkPath` | crates/collector/src/editor/schema_registry.rs:679-685 | The cursor walk reads the value at a path, or nothing. |
| `JsonTree.SetThenGet` | crates/collector/src/editor/schema_registry.rs:690-705 | What is set at a path is read back there. |
| `JsonTree.SetKeepsOthers` | crates/collector/src/editor/schema_registry.rs:690-705 | Every path that neither leads to nor through the written one is unchanged. |
| `Forms.FieldFromMatches` | crates/collector/src/editor/app.rs:229-271 | Every value, of whatever shape, opens as the widget its spec asks for, with its choice in range. |
| `Forms.ToValue` | crates/collector/src/editor/app.rs:109-152 | The loop writes the non-empty fields and the type key. |
| `Forms.FormWrites` | crates/collector/src/editor/app.rs:109-152 | For prefix-free keys every field reads back exactly what it wrote. |
| `Forms.FormWritesType` | crates/collector/src/editor/app.rs:109-152 | The type is written exactly by the forms that carry one. |
| `Forms.ItemsOfJoined` | crates/collector/src/editor/app.rs:128-138 | A list shown as text and split again is the same list. |
| `Forms.StringsSkip` | crates/collector/src/editor/app.rs:229-271 | Of a list only the texts are read, in order. |
| `Forms.ItemsArePartsTrimmed` | crates/collector/src/editor/app.rs:128-138 | A typed list is its parts between commas, trimmed, without the blank ones, in order. |
| `Forms.NormalizeAlikeIff` | crates/collector/src/editor/app.rs:98-152 | Two values become the same after load and submit exactly when every field settles alike. |
| `Forms.FieldSettlesIff` | crates/collector/src/editor/app.rs:229-271 | A second round changes a field exactly when it is a text with a non-empty default that held an empty text. |
| `Forms.TwoRoundsSuffice` | crates/collector/src/editor/app.rs:98-152 | For any prefix-free form and any JSON value, load-then-submit reaches its fixpoint after at most two rounds. |
| `Forms.OneRoundSufficesIff` | crates/collector/src/editor/app.rs:98-152 | One round is enough exactly when no text field with a non-empty default holds an empty text. |
| `Forms.UnlistedSurvivesIff` | crates/collector/src/editor/app.rs:98-152 | What no field of a form stands for reads as nothing after a submit, so it survives exactly if it was nothing before. |
| `Forms.FieldKeepsIff` | crates/collector/src/editor/app.rs:229-271 | Opened and submitted untouched, a field keeps exactly the values its widget can hold: any bool, an option, a non-empty text, a non-empty list of clean texts, operators. |
| `Forms.ListedSurvivesIff` | crates/collector/src/editor/app.rs:98-152 | A path of the form reads back what it held exactly if that fits its field. |
| `Forms.UnfitFallsBack` | crates/collector/src/editor/app.rs:229-271 | What replaces a value that does not fit: the default, the first option, or what a text field prints it as. |
| `FormEditing.FormKeyKeepsForm` | crates/collector/src/editor/app.rs:187-220 | Focus and choices stay in range and fields match their specs after every key. |
| `FormEditing.KeysUndo` | crates/collector/src/editor/app.rs:187-220 | BackTab undoes Tab and, outside text inputs, Left undoes Right, around the ends too; keys that move or leave change no field. |
| `FormEditing.KeyIsWritten` | crates/collector/src/editor/app.rs:187-220 | A key in the focused field is written under its path and no other: what is typed, the toggle flipped, the next or previous option around the ends. |
| `FormEditing.SetOperatorsSets` | crates/collector/src/editor/app.rs:168-185 | The operators set are the operators read back; other fields stay. |
| `FormEditing.MinimalValue` | crates/collector/src/editor/schema_registry.rs:711-729 | The loop seeds exactly the required fields. |
| `FormEditing.SeededFormShows` | crates/collector/src/editor/schema_registry.rs:711-729 | A new component's form shows what an empty one would, except placeholders in required texts and lists without a default. |
| `EditorDocument.ParseToJson` | crates/collector/src/editor/model.rs:59-95 | Parsing what was written gives the document back. |
| `EditorDocument.SavedTreeHolds` | crates/collector/src/editor/model.rs:83-95 | What is saved where: the four tables as they are, and as active extensions exactly those defined, each once and in order. |
| `EditorDocument.ReferencingNamesAll` | crates/collector/src/editor/model.rs:164-181 | Exactly the pipelines that list the id under the category's key, each once and in order. |
| `EditorDocument.StripFromPipelines` | crates/collector/src/editor/model.rs:186-195 | The in-place loop removes the id from every pipeline's list. |
| `EditorDocument.StripRemovesExactly` | crates/collector/src/editor/model.rs:186-195 | Afterwards nothing refers to the id and every other reference is as it was. |
| `EditorDocument.StripKeepsRest` | crates/collector/src/editor/model.rs:186-195 | Whatever else a pipeline holds stays, and so does everything outside the pipelines. |
| `EditorDocument.WithoutDrops` | crates/collector/src/editor/model.rs:186-195 | Of a list exactly the id goes; the others keep their order. |
| `EditorDocument.TablesAreSeparate` | crates/collector/src/editor/app.rs:362-376 | Each category has its own table; adding or removing a component changes no other entry. |
| `EditorDocument.RemoveStripped` | crates/collector/src/editor/model.rs:183-195 | Stripping and removing settles the references to the component and adds no dangling one. |
| `EditorDocument.PlaceholderResolves` | crates/collector/src/editor/model.rs:221-232 | The validated stand-in mentions no variable, and is the document itself if that mentions none. |
| `EditorDocument.PlaceholderStandsIn` | crates/collector/src/editor/model.rs:221-232 | The stand-in differs at the texts that mention a variable and nowhere else. |
| `Text.ContainsIff` | crates/collector/src/editor/model.rs:221-232 | Mentioning a text is having it somewhere inside. |
| `EditorDocument.SaveWithBinary` | crates/collector/src/editor/model.rs:149-156 | Stopped anywhere, the config file is entirely the old one or the whole document whose stand-in validated; an error means the old one, and that an operation failed or the stand-in was refused. |
| `EditorSessions.KeyStaysSafe` | crates/collector/src/editor/app.rs:387-552 | After every key on every screen, all selections, focus and choices are in range, forms match their specs, and every lookup that would panic succeeds. |
| `EditorSessions.Run` | crates/collector/src/editor/app.rs:387-552 | The same after every key sequence: no session meets an index or a lookup that fails. |
| `EditorModel.TabsCycle` | crates/collector/src/editor/app.rs:36-61 | The tabs form a ring in both directions, and every category has its own. |
| `EditorModel.CategoriesAreSeparate` | crates/collector/src/editor/app.rs:362-385 | Every category is listed on its own tab and offers its own types. |
| `EditorModel.ComponentTypeNames` | crates/collector/src/editor/schema_registry.rs:736-738 | The type of an id is the name it equals or continues with a slash. |
| `EditorSessions.OnlyTheseKeysChange` | crates/collector/src/editor/app.rs:400-662 | The only keys that change the document, screen by screen; each marks it as unsaved. |
| `EditorFlows.AddingAddsComponent` | crates/collector/src/editor/app.rs:404-473 | Adding a component of any type from the top level: a new id gets what the seeded form of that type writes, a taken or blank id is refused at the prompt. |
| `EditorSessions.SessionStaysClean` | crates/collector/src/editor/app.rs:641-659 | Over every key sequence, when dirty is false the last loaded or saved tree parses to the document in memory. |
| `EditorSessions.KeyAddsNoDangling` | crates/collector/src/editor/app.rs:400-662 | No key but the submission of a pipeline form makes a pipeline list a receiver or exporter that is not defined. |
| `EditorSessions.KeyAddsDanglingIff` | crates/collector/src/editor/app.rs:462-473 | A key adds a dangling reference exactly when it submits a pipeline form whose typed list names an undefined component. |
| `EditorSessions.SubmittedPipelineLists` | crates/collector/src/editor/app.rs:462-473 | A submitted pipeline lists exactly the ids typed; other pipelines stay. |
| `EditorSessions.RemovedIsUnlisted` | crates/collector/src/editor/app.rs:474-483 | A component that a key removes is listed by no pipeline afterwards. |
| `EditorSessions.SessionAddsNoDangling` | crates/collector/src/editor/app.rs:387-552 | A session without a submitted pipeline form adds no dangling reference. |
| `EditorFlows.RemovalAsksIffListed` | crates/collector/src/editor/app.rs:576-662 | Removing any listed component: one no pipeline lists goes at once, another only after a confirmation that names exactly the pipelines listing it. |
| `EditorFlows.RemovingRemovesExactly` | crates/collector/src/editor/app.rs:474-483 | After the removal and its confirmation exactly that component is gone, and exactly the references to it. |
| `EditorFlows.DeletingOperator` | crates/collector/src/editor/app.rs:687-730 | Deleting any operator removes exactly it, keeps the others in order and every other field, and selects the first. |
| `EditorFlows.EditingOperator` | crates/collector/src/editor/app.rs:490-512 | Opening any operator and submitting it untouched replaces it, and only it, by what its form makes of it, and selects it again. |
| `EditorFlows.AddingOperator` | crates/collector/src/editor/app.rs:732-760 | Picking any operator type and submitting it appends its seeded form, and only that, and selects it. |
| `EditorFlows.LeavingOperatorsKeepsThem` | crates/collector/src/editor/app.rs:687-730 | Esc at the operators goes back to the form with them as they are and the next field focused. |
| `EditorEdits.OpeningShows` | crates/collector/src/editor/app.rs:594-618 | Enter on any listed component opens it and no other: its own value in the form of the first type its id names, or of the first of all. |
| `EditorEdits.ResubmittingKeepsWhatFits` | crates/collector/src/editor/app.rs:443-461 | Submitting it untouched changes that component only, and keeps under each field exactly what fits it. |
| `EditorEdits.EditingWritesTyped` | crates/collector/src/editor/app.rs:443-461 | Typing into any text field of any component and submitting writes that there; every other field keeps exactly what fits it. |
| `EditorEdits.OpeningPipelineShows` | crates/collector/src/editor/app.rs:613-617 | Enter on any listed pipeline opens its own definition. |
| `EditorEdits.RemovingPipeline` | crates/collector/src/editor/app.rs:620-640 | d on any pipeline removes exactly it. |
| `EditorEdits.AddingPipelineOpensForm` | crates/collector/src/editor/app.rs:427-442 | A new pipeline id opens an empty form; a taken or blank one is refused at the prompt. |
| `EditorEdits.AddingFromTemplate` | crates/collector/src/editor/app.rs:510-552 | Any template taken with its defaults under a new id adds the receiver it builds from them, and nothing else. |
| `EditorEdits.ReviewGoesBack` | crates/collector/src/editor/app.rs:544-548 | Esc at the review goes back to the parameters, which hold what they held as far as it fits. |
| `EditorEdits.HelpChangesNothing` | crates/collector/src/editor/app.rs:387-398 | Help and any key leave everything as it was. |
| `EditorEdits.DecliningChangesNothing` | crates/collector/src/editor/app.rs:474-483 | Declining a removal shows the tab it came from and changes nothing. |
| `EditorEdits.CancellingOperatorKeepsAll` | crates/collector/src/editor/app.rs:490-494 | Leaving an operator's form keeps all operators and selects that one. |
| `EditorEdits.EscsLeave` | crates/collector/src/editor/app.rs:400-662 | From every screen Esc, pressed once more than the screen is deep, leaves the editor by way of the tab it came from and changes nothing. |
| `EditorApp.App.OnKey` | crates/collector/src/editor/app.rs:387-398 | The object's own update is the state machine's step; it keeps index safety, and while nothing is unsaved the file on disk reads as the document in memory. |
| `EditorApp.App.Save` | crates/collector/src/editor/app.rs:641-659 | On success the file on disk reads back as the document and nothing is unsaved; on failure the file is as it was and dirty stays. |
| `EditorApp.App.HandleKey` | crates/collector/src/editor/app.rs:400-552 | Every screen's handler changes document, flags and screen as its step function says. |
| `SavedPipelines.ExtractPipelines` | otelcol/extensions/statuscfgextension/resolvedconfig.go:66-97 | The pipelines read from a config tree: the string items of their two lists, in order; other shapes read as empty. |
| `SavedPipelines.SubmittedPipelineIsRead` | otelcol/extensions/statuscfgextension/resolvedconfig.go:66-97 | After submitting a pipeline form and saving, the collector reads exactly the receivers and exporters typed, and the other pipelines as before. |

## Left out

- HTTP status codes and bodies, JSON, YAML and SQL text, schema migrations: the store is a map from id to row, YAML encodes a JSON tree faithfully, and a parser's verdict is a parameter.
- The OpAMP library, WebSocket transport, its resends on reconnect and the first message it prepares: delivery is a step that happens or not. A reconnect that reports a file without touching `lastEffectiveConfigHash` is not a step of its own.
- Lost or repeated acknowledgements, concurrent applies and overlapping uploads to one path: assumed away in the runs; `ConfigRollout.RepeatedAckErasesLastGood` shows what a repeated acknowledgement breaks.
- Overlapping package pushes: `OverlappingPushes` follows configs only.
- FleetStore.Store.UpsertAgentDescription: does not model the last-seen time, which nothing else depends on.
- Columns that nothing else depends on: health, snapshot, last seen. Of a snapshot message only the start time is modelled.
- Bulk package push: the bulk config push with a package in place of a config.
- The getters and setters of the agent's package state other than the recorded file hash.
- `validateErrorMessage`, hints and status messages: texts for people.
- Unicode case folding: `lower` and `equalFold` are parameters; trimming uses the White_Space characters.
- YAML maps with non-string keys: the program's redaction does not enter them either, they are leaves here.
- Floating-point error in the split and the layout, and uint64 overflow of the counters.
- Colours, shades and percentages of the Topology view, and the order inside a column (by flow, then by the reader's locale): every result holds for any order.
- Ids such as `__proto__` that a JavaScript object treats specially.
- Splitting dotted paths and URL paths: a path is the list of its parts.
- The contents of the type registry and of the templates: parameters, with the one demand that a choice has something to choose from; the prefix-freeness the form results require holds for the keys the registry lists.
- Drawing, cursor movement inside text inputs, the terminal loop, the dashboard.
- Creating missing parent directories on save, and files changed by others while the editor is open.
- FormEditing.KeysUndo: says nothing about Left and Right in text inputs, whose cursor is not modelled.
- EditorApp.App.OnKey: forms are values, so updating a form's fields in place is not captured.
- Ribbons.ComputeSankeyLayout: takes the column orders as arguments instead of sorting, and leaves out colours and percentages.
- FleetStore.Store.RecordStartedAt: times are opaque texts; their order is a parameter of the flapping results.

# MioProxy verification

A Dafny model of the backend of MioProxy, a Windows controller that owns a child proxy core, and proofs about it.
The backend is a set of crash-safe transactions and reconciliation loops over a small durable state: a few files,
five registry values, the core's executable, the controller's loaded configuration and a clock.

Each component is modelled in the form the program has. Objects updated in place are classes, loops are loops, and
code made of expressions is functions. Input and output become single operations that succeed or fail by an
arbitrary, fixed oracle (`faults`), and questions to the outside world are answered by another (`answers`,
`listening`, `ready`). Every durable state is appended to a trace, so "crash here" is any element of the trace.
What another program does to the registry between two of our operations is an oracle too (`others`).

Operations are tied to specification functions. What those mean is stated apart from them, entry by entry and with
the constants written out: what a built runtime shows (`Config.Shows`), what an enable leaves in the five values, and
the lemmas whose names end in `Exactly`. The operations also say when they succeed, not only what success means.

| file | component |
|---|---|
| Basics.dfy, Sets.dfy, Text.dfy | results, counting, decimal printing and blank text |
| Yaml.dfy | YAML trees and their merge |
| Config.dfy, Dns.dfy | validation, runtime layers, the runtime override, DNS settings |
| Host.dfy | the data directory with failing operations, builds, and the three-file commit |
| TunSession.dfy, ServiceTun.dfy, GuiTun.dfy | the TUN session as a write-ahead protocol, in the service and in the window process |
| CoreRecovery.dfy | the restart policy of the core |
| Reconciliation.dfy | the TUN reconciler in closed loop with the service |
| SystemProxy.dfy | ownership of the Windows proxy settings |
| CoreUpdate.dfy | replacement of the core's executable |
| Profiles.dfy, SubscriptionNames.dfy | the profile registry and converted subscriptions |

`dafny verify dfyconfig.toml` checks the whole project.

## What the proofs found

Some natural claims are false of the code. The model keeps the code as it is. Each item names the members that give
the failing case and the ones that say when the claim does hold.

- The merge is not associative (`Yaml.GroupingMatters`). `Yaml.MergeAssociativeExactly` says when three layers may
  be regrouped.
- While TUN is on, a profile whose `tun` section is not a mapping can be applied, because the override replaces it.
  The session can then neither be ended nor recovered (`ServiceTun.SessionCanBeTrapped`), because switching off
  needs an editable section (`ServiceTun.EndsExactlyWhenShaped`). A disk without such bases is called fit.
- The window process cannot recover a session when there is no base to rebuild from, while the service can
  (`GuiTun.BaselessSessionIsStuck`): the first treats "nothing to rebuild" as an error. When it can recover is
  `GuiTun.RecoverableExactly`.
- Reloading the active runtime can report failure after it has committed. It does so exactly when the core is not
  ready at the last look; the outcome `ReloadedUnready` keeps the two apart in the contract of
  `ServiceTun.ServiceRuntime.ApplyActiveRuntime`.
- The wait after a failure can be cut short. A core left behind by a failed start and then seen ready clears it
  (`CoreRecovery.ReadyCutsTheGap`); the wait is kept exactly as `CoreRecovery.BackoffIsKeptExactly` says.
- The monitor records the failures it finds itself without asking whether the policy is suspended, so a window can
  hold a fifth one (`CoreRecovery.LossBreaksTheBound`). Until a healthy minute, failed automatic starts stay at four
  per window wherever those fall, and all failures do if none is found while the policy is suspended
  (`CoreRecovery.SupervisedStartsAreBounded`). Which runs those are is `CoreRecovery.HistoryIsUnsuspendedExactly`;
  which failures they exclude is `CoreRecovery.FourInARowExactly`.
- The window of the restart policy is half-open: a failure and the fourth one after it may lie exactly 600 seconds
  apart. Without a healthy mark a restart changes nothing, but a restart of a suspended core that has been healthy
  for a minute lifts the suspension by itself (`CoreRecovery.RestartIsTransparent`).
- A crash after exactly the first of the five enabling writes is not undone at the next start: it leaves the proxy
  server the user had set, but not enabled, switched on (`SystemProxy.CutEnableRecovers`). A restore that is cut is
  never resumed (`SystemProxy.CutRestoreIsAbandoned`).
- What another program writes between the confirming reading of a rollback and its first write is lost
  (`SystemProxy.WriteInTheGapIsLost`). For any burst and any such writes, `SystemProxy.LastOtherWriteDecides` gives
  the outcome and `SystemProxy.OtherWriteSurvivesExactly` says which writes survive. A rollback that nobody disturbs
  from the confirming reading to its last write restores the settings exactly or leaves the registry alone,
  whatever was written earlier (`SystemProxy.SystemProxy.RestoreFailedEnable`).
- A session still paused when the recovery runs loses its record and keeps its settings, so the original is back
  only if the paused settings were the original ones (`SystemProxy.PausedIsAbandoned`). This happens when another
  process holds the port at the start after an update (`SystemProxy.SystemProxy.StartAfterUpdate`) and when the
  system proxy is disabled during the pause (`SystemProxy.SystemProxy.Disable`).
- A download that is not committed and whose random file name equals the one in use deletes that file when it
  cleans up. `Profiles.Registry.FinishDownload` says exactly when the disk stays consistent; runs are consistent until
  that happens or a generated id is in use (`Profiles.DroppingAFileExactly`, `Profiles.AdditionExactly`).

## Model

| member | source | states |
|---|---|---|
| ServiceTun.SurviveCrashes | src-tauri/src/service.rs:3750-3799 | any number of service runs, every operation free to fail, each run cut between any two durable steps of any command or of its own recovery: every disk left behind has TUN on nowhere unless the recovery file exists; from a fit disk, a session saved by an older version included, each is recoverable and a last run without failures ends Disabled, override off, `config.yaml` off, no recovery file; its `config.yaml` then shows the base of the crashed disk (or what the older session's profile builds), entry by entry, with the stamped entries and without TUN, and the base is stored unchanged |
| ServiceTun.FitIsRecoverable | src-tauri/src/service.rs:1758-1765 | a disk of this or an older version's writings over bases with an editable `tun` section recovers without failures |
| ServiceTun.EndsExactlyWhenShaped | src-tauri/src/service.rs:3591-3734 | with a valid active base, switching off and recovery succeed if and only if the base's `tun` section is a mapping or absent |
| ServiceTun.StartsExactlyWhenShaped | src-tauri/src/service.rs:3471-3524 | with no override yet, a session starts over a valid base if and only if its `tun` section is a mapping or absent and there is a configuration |
| ServiceTun.FitIsStoppable | src-tauri/src/service.rs:3586-3734 | a session on a fit disk, an older one included, can be ended |
| ServiceTun.FitEndsOffline | src-tauri/src/service.rs:3586-3734 | and so can the one in memory, without a core |
| ServiceTun.OnAcceptsEveryValidBase | src-tauri/src/config.rs:1209-1243 | while TUN is on every valid base builds, whatever its `tun` section is |
| ServiceTun.SessionCanBeTrapped | src-tauri/src/service.rs:3281-3354 | hence a profile whose `tun` is a number can be applied during a session, which can then neither be ended nor recovered |
| ServiceTun.ServiceRuntime.Serve | src-tauri/src/service.rs:3828-3912 | any sequence of enable, disable, apply, core start and shutdown keeps the crash invariant at every durable state and keeps the status truthful; without a core and without failures, a run over a fit disk that ends with a disable or shutdown ends with everything off |
| ServiceTun.ServiceRuntime.EnableTun | src-tauri/src/service.rs:3439-3548 | on success Running with the recovery file, on failure nothing changed, everything off, or Error with the recovery file kept; without failures it succeeds if and only if the active base exists and both runtimes build; no administrator rights or a foreign TUN: nothing is touched. On success the override shows what switching on writes and `config.yaml`, which the controller runs, the base under it entry by entry; a failed enable leaves the base and a configuration of that base |
| ServiceTun.ServiceRuntime.ConfirmRunning | src-tauri/src/service.rs:3459-3470 | an enable while running confirms the session unchanged or ends it; without failures it is kept exactly if the controller has TUN on |
| ServiceTun.ServiceRuntime.CheckBaseline | src-tauri/src/service.rs:3471-3494 | a session starts only with no recovery pending, an active base and a controller without TUN; checking may migrate the base but not what it builds |
| ServiceTun.ServiceRuntime.StartSession | src-tauri/src/service.rs:3496-3539 | the recovery file is written before anything is switched on; a failed start leaves everything off or the recovery file in place with the same base; on success file and controller hold that base under the switched override |
| ServiceTun.ServiceRuntime.Launch | src-tauri/src/service.rs:3510-3524 | override, `config.yaml` and controller agree that TUN is on, in exactly the states where the runtime builds; the configuration is the base under the switched override, entry by entry |
| ServiceTun.ServiceRuntime.RollbackTun | src-tauri/src/service.rs:3550-3584 | a failed enable ends with everything off, or in Error with the recovery file untouched; without failures everything is off exactly if the off runtime can be reloaded, or rebuilt where no core runs, and `config.yaml` is then that runtime, which a core that is there has loaded |
| ServiceTun.ServiceRuntime.SwitchBack | src-tauri/src/service.rs:3555-3572 | its file and controller work: override off, and the base's runtime without it in file and controller |
| ServiceTun.ServiceRuntime.DisableTun | src-tauri/src/service.rs:3586-3734 | success means all off and the session forgotten, failure never loses the recovery file; without failures success is exactly that the off runtime can be reloaded; `config.yaml` is then the base's runtime without TUN, or what the older session's profile builds, and the controller runs it; a foreign core is left alone |
| ServiceTun.ServiceRuntime.DisableSession | src-tauri/src/service.rs:3593-3734 | the same for a session on file or in memory, with the saved override of an older version written back |
| ServiceTun.ServiceRuntime.EndSession | src-tauri/src/service.rs:3636-3728 | the recovery file goes last: it is gone only when override and configuration are off, and the configuration is the base's without TUN; exactly when it succeeds, with a core and without one |
| ServiceTun.ServiceRuntime.Unwind | src-tauri/src/service.rs:3636-3715 | all of that but the recovery file |
| ServiceTun.ServiceRuntime.SwitchFilesOff | src-tauri/src/service.rs:3636-3653 | local override restored if one was saved, runtime override deleted, nothing else touched |
| ServiceTun.ServiceRuntime.DisableWithoutSession | src-tauri/src/service.rs:3612-3625 | without a session the override is deleted and the configuration rebuilt from the base, or nothing is there to rebuild |
| ServiceTun.ServiceRuntime.RebuildWithoutSession | src-tauri/src/service.rs:3614-3620 | exactly when the off runtime can be rebuilt, or there is nothing to rebuild |
| ServiceTun.ServiceRuntime.RestoreRuntime | src-tauri/src/service.rs:3663-3694 | after a session `config.yaml` is the base's runtime without TUN, or what the session's profile builds, and the controller runs it when it is ready; exactly when this succeeds, with a ready core and without one |
| ServiceTun.ServiceRuntime.ApplyActiveRuntime | src-tauri/src/service.rs:3356-3437 | after success, also the one reported as failure exactly when the core is not ready at the last look, `config.yaml` is the active base under the stored override, entry by entry, and is what the controller runs; a refusal changes neither, an undone reload leaves them equal, and the base is never lost |
| ServiceTun.ServiceRuntime.Swap | src-tauri/src/service.rs:3374-3432 | candidate, PUT, read-back and commit are all undone if one of them fails, and one failing operation always is; the candidate is dropped |
| ServiceTun.ServiceRuntime.LoadAndStore | src-tauri/src/service.rs:3388-3407 | `config.yaml` is replaced only after the controller confirmed the same value |
| ServiceTun.ServiceRuntime.PrepareCandidate | src-tauri/src/service.rs:3286-3298 | the staged candidate is exactly the profile's build |
| ServiceTun.ServiceRuntime.ApplyProfile | src-tauri/src/service.rs:3281-3354 | all or nothing: committed means base, configuration, active pointer and controller are the build's; refused or rolled back means all four are as before; they are what the profile's source builds under the local override, entry by entry |
| ServiceTun.ServiceRuntime.ApplyProfiles | src-tauri/src/service.rs:3281-3354 | over any run in which no undo step failed the controller runs `config.yaml`, and base and active pointer are those of the last committed profile |
| ServiceTun.LastCommitted | src-tauri/src/service.rs:3281-3354 | the last committed application of a run |
| ServiceTun.ServiceRuntime.Startup | src-tauri/src/service.rs:4442-4445 | after startup the status is Disabled with everything off, or Error with the recovery file kept; without failures Disabled if and only if there was nothing to recover or it is recoverable; `config.yaml` then shows the base without TUN, entry by entry |
| ServiceTun.ServiceRuntime.Recover | src-tauri/src/service.rs:3750-3799 | recovery succeeds, without failures, exactly from the recoverable disks, and never drops the recovery file before the rest is off, after `config.yaml` has been rebuilt from the base, or from the older session's profile, entry by entry; without a recovery file nothing is touched |
| ServiceTun.ServiceRuntime.RestoreDisk | src-tauri/src/service.rs:3754-3775 | the files are switched off without a controller |
| ServiceTun.ServiceRuntime.CommitBuilt | src-tauri/src/service.rs:3759-3767 | an older version's session is recovered through the profile's full build, exactly when the profile builds |
| ServiceTun.ServiceRuntime.RestoreOverride | src-tauri/src/config.rs:1463-1476 | only a valid saved override is written back |
| ServiceTun.ServiceRuntime.HandleApply | src-tauri/src/service.rs:3853-3861 | refused in a transition or with a recovery pending; an apply during a session rebinds the session and its file, or neither if the file cannot be written; the TUN status and override never change; without failures it commits exactly if the profile builds, and a running session is then rebound |
| ServiceTun.ServiceRuntime.HandleCoreStart | src-tauri/src/service.rs:3081-3086 | a core starts only on files with TUN off everywhere; its `config.yaml` is the base's runtime; exactly when it goes through |
| ServiceTun.ServiceRuntime.ReadTunPersisted | src-tauri/src/service.rs:2428-2437 | an unreadable recovery file is an error, not an absent one |
| ServiceTun.ServiceRuntime.WriteTunPersisted | src-tauri/src/service.rs:2446-2459 | the recovery file holds the session in memory |
| ServiceTun.ServiceRuntime.ClearTunPersisted | src-tauri/src/service.rs:2501-2504 | the recovery file may go only when TUN is off in both files |
| GuiTun.SurviveCrashes | src-tauri/src/tun.rs:1075-1129 | the window process's twin of the crash theorem, with its own recovery file and steps, older sessions included; its `config.yaml` shows the base of the crashed disk without TUN, entry by entry, and the base is unchanged |
| GuiTun.FitIsRecoverable | src-tauri/src/tun.rs:670-722 | every fit disk is recoverable by the window process |
| GuiTun.TunController.Serve | src-tauri/src/tun.rs:946-1072 | any sequence of enable, disable, core exit, exit and apply keeps the crash invariant; without a core and without failures, a run over a fit disk that ends with a disable ends with everything off |
| GuiTun.TunController.EnableTun | src-tauri/src/tun.rs:754-847 | Running means recovery file, override, configuration and controller all agree; a failure changes nothing, ends all off, or stays in Error with the recovery file; exactly when it succeeds without failures; the configuration is the base under the switched override, entry by entry; a refusal leaves the files alone and says which refusals show as Error |
| GuiTun.TunController.ConfirmRunning | src-tauri/src/tun.rs:760-765 | an enable while running keeps the session or ends it completely, or leaves it in Error with the recovery file; without failures it keeps it |
| GuiTun.TunController.StartSession | src-tauri/src/tun.rs:799-846 | write-ahead order and rollback of a start over one unchanged base |
| GuiTun.TunController.Launch | src-tauri/src/tun.rs:814-835 | the launched runtime is on in file and controller, in exactly the states where it builds, the base under the switched override, entry by entry |
| GuiTun.TunController.RollbackEnable | src-tauri/src/tun.rs:724-752 | all off, or Error with the recovery file; without failures exactly when the off runtime can be rebuilt; file and controller then hold the base's runtime without TUN |
| GuiTun.TunController.DisableTun | src-tauri/src/tun.rs:849-891 | ends with everything off or in Error with the recovery file; an unreadable recovery file blocks it; file and an own core's controller then hold the base's runtime without TUN, and without a core nothing is loaded |
| GuiTun.TunController.EndSession | src-tauri/src/tun.rs:873-881 | the recovery file goes last, exactly when the off runtime can be rebuilt |
| GuiTun.TunController.RebuildRuntimeOnDisk | src-tauri/src/tun.rs:677-688 | override off and a configuration without TUN; unlike the service, a missing base is an error; the configuration shows the base without TUN, entry by entry |
| GuiTun.TunController.RestoreLegacy | src-tauri/src/tun.rs:670-675 | blank text of an older version empties the local override |
| GuiTun.TunController.LoadTunRuntime | src-tauri/src/tun.rs:690-704 | the TUN runtime is rebuilt, loaded and confirmed |
| GuiTun.TunController.RestoreNonTunRuntime | src-tauri/src/tun.rs:706-722 | the off runtime is rebuilt, and loaded when the core is this process's own |
| GuiTun.TunController.RecoverAfterStartup | src-tauri/src/tun.rs:1075-1129 | idle with everything off, or Error with the recovery file; without failures idle exactly when there was nothing to recover or it is recoverable; `config.yaml` then shows the base without TUN |
| GuiTun.TunController.OnCoreExit | src-tauri/src/tun.rs:1021-1072 | after the core's death the files are switched off or the session stays recorded |
| GuiTun.TunController.RebuildAndClear | src-tauri/src/tun.rs:1044-1046 | files off, then the recovery file removed |
| GuiTun.TunController.RestoreForLifecycle | src-tauri/src/tun.rs:1002-1019 | a successful exit leaves everything off, exactly when the session on file can be rebuilt |
| GuiTun.TunController.ApplyConfig | src-tauri/src/config.rs:1580-1642 | applying a profile without the service is all or nothing over controller, configuration, base and active pointer; what is committed is what the profile's source builds, entry by entry |
| GuiTun.TunController.HandleApply | src-tauri/src/config.rs:1670-1693 | refused in a transition or with a recovery pending; an apply during a session rebinds the session, and its file if that can be written; without failures it commits exactly if the profile builds |
| GuiTun.LocalOverrideIsInvisible | src-tauri/src/config.rs:1042-1059 | rebuilding from the active base never looks at the local override |
| Host.OnThenOffRestores | src-tauri/src/config.rs:1482-1530 | TUN on, base and runtime stored, and off again: the override file is gone and the active runtime is exactly what it was, for a stored base and for one still to be migrated |
| Host.RuntimeFlag | src-tauri/src/config.rs:1053-1059 | a rebuilt runtime has TUN on exactly when the stored runtime override has |
| Host.BuildFlag | src-tauri/src/config.rs:1175-1207 | so does a profile's build |
| Host.BuildIsStorable | src-tauri/src/config.rs:1175-1207 | what is built on a guarded disk may be stored without breaking the crash invariant or the disk's fitness |
| Host.BuildsExactly | src-tauri/src/config.rs:1175-1207 | a profile builds if and only if everything it reads is there, its layers are a valid configuration and the `tun` section is a mapping or absent under the override |
| Host.BuildIsShown | src-tauri/src/config.rs:1175-1207 | and what it builds shows those layers entry by entry |
| Host.RuntimeIsShown | src-tauri/src/config.rs:1209-1243 | what the active base builds shows it under the override entry by entry |
| Host.SwitchKeeps | src-tauri/src/config.rs:1482-1530 | switching on keeps the invariant only behind the recovery file, switching off always |
| Host.BaseKeeps | src-tauri/src/config.rs:981-985 | replacing the active base by a fit one keeps a disk recoverable |
| Host.MigrationKeeps | src-tauri/src/config.rs:966-979 | so does migrating the old configuration to be the base |
| Host.Machine.SetTun | src-tauri/src/config.rs:1482-1530 | the override file after a switch, or no change; without failures exactly when the file is readable |
| Host.Machine.ReadBase | src-tauri/src/config.rs:953-979 | the base read is the stored one or the migrated configuration, and it is stored from then on |
| Host.BaseIsFoundExactly | src-tauri/src/config.rs:953-979 | which base is found: the stored one if it is a mapping, without one the old configuration if it is accepted; two missing files are none, anything else an error |
| Host.LocalIsReadExactly | src-tauri/src/config.rs:603-617 | what counts as local override |
| Host.Machine.ActiveRuntime | src-tauri/src/config.rs:1053-1059 | the runtime is the layering of the base under the stored override; nothing but the base file may change, entry by entry |
| Host.Machine.RestoreActiveRuntime | src-tauri/src/config.rs:1042-1051 | the rewritten configuration shows the base under the stored override, entry by entry, and the base is stored; without a base nothing is written |
| Host.Machine.BuildValue | src-tauri/src/config.rs:1175-1207 | a build is the merge of source and local override, valid, then layered; each unreadable input is an error; what it shows is the source under the local and the runtime override, entry by entry |
| Host.Machine.CommitRuntimeState | src-tauri/src/config.rs:994-1040 | base, configuration and active pointer are all the new ones, or all the old ones, or the rollback itself failed; every durable state between keeps the crash invariant; one failing operation never leaves them mixed |
| Host.Machine.WriteThree | src-tauri/src/config.rs:1003-1005 | base first, then configuration, then pointer, until one write fails |
| Host.Machine.UndoCommit | src-tauri/src/config.rs:1010-1038 | all three restores are tried; rolled back means all three are back |
| Host.Machine.LoadAndCommit | src-tauri/src/config.rs:1599-1634 | PUT, read-back and commit: controller and files move together or go back together; one failing operation never leaves them apart, and the candidate goes |
| Host.Machine.LoadThenCommit | src-tauri/src/config.rs:1599-1620 | the part of it that can be undone |
| Host.Machine.UndoLoad | src-tauri/src/config.rs:1611-1622 | an undone load leaves the previous configuration stored and running |
| Host.Machine.VerifyController | src-tauri/src/config.rs:1644-1668 | confirmation means the controller runs with the expected TUN flag |
| TunSession.OffRuntime | src-tauri/src/config.rs:1209-1243 | with the override gone a valid base builds if and only if its `tun` section is a mapping or absent |
| TunSession.SessionKeeps | src-tauri/src/service.rs:2446-2504 | the recovery file may be dropped only with TUN off in both files |
| Yaml.MergeValues | src-tauri/src/config.rs:645-658 | the in-place loop, in any order of the overlay's keys, computes the recursive merge |
| Yaml.MergePathwise | src-tauri/src/config.rs:645-658 | at every path the merge shows the overlay's leaf, else the base below no overlay leaf, else the shared branch |
| Yaml.MergeIsThePathwiseTree | src-tauri/src/config.rs:645-658 | the path-wise description holds of the merged tree and of no other tree |
| Yaml.MergeIdempotent | src-tauri/src/config.rs:645-658 | merging the same overlay twice is merging it once |
| Yaml.MergeAssociativeExactly | src-tauri/src/config.rs:645-658 | three layers may be regrouped if and only if the middle one is a mapping wherever both others are, or the top one covers the bottom one there |
| Yaml.BranchingMiddleRegroups | src-tauri/src/config.rs:645-658 | such a middle layer meets the exact condition for regrouping |
| Yaml.GroupingMatters | src-tauri/src/config.rs:645-658 | a scalar middle layer erases the bottom one only when merged first |
| Yaml.CoveredExactly | src-tauri/src/config.rs:645-658 | a base is wholly replaced by an overlay exactly when every base path leads to an overlay path |
| Yaml.SightsDetermine | src-tauri/src/config.rs:645-658 | trees that show the same at every path are equal |
| Config.MergeKeepsValid | src-tauri/src/config.rs:1099-1167 | layers that each pass validation merge into a configuration that passes |
| Config.MergeKeepsDnsValid | src-tauri/src/config.rs:1112-1150 | the same for the `dns` section |
| Config.TunComesFromRuntimeOverride | src-tauri/src/config.rs:1209-1243 | whatever profile and local override say, a built runtime has TUN on exactly when the runtime override has |
| Config.LayersAcceptExactly | src-tauri/src/config.rs:1209-1243 | for a valid merge and a usable port the layering fails if and only if the `tun` section is not a mapping |
| Config.LayeredIsFit | src-tauri/src/config.rs:1209-1243 | a built runtime is itself a valid base with an editable `tun` section |
| Config.OutboundKeepsValid | src-tauri/src/config.rs:1251-1287 | the outbound edits keep a configuration valid |
| Config.StampKeepsValid | src-tauri/src/config.rs:1222-1239 | so do the stamped port, controller and secret |
| Config.StoredPortIsNeutral | src-tauri/src/config.rs:1237-1239 | once a runtime has been stored, later builds of the same base no longer depend on what was stored |
| Config.LayeredPort | src-tauri/src/config.rs:1237-1239 | the port of a built runtime is the stored one if there is one, else the merged layers' own entry |
| Config.RuntimePort | src-tauri/src/config.rs:672-677 | a port read from a stored configuration lies in 1..65535 |
| Config.ApplyRuntimeLayers | src-tauri/src/config.rs:1209-1243 | the built runtime, entry by entry: the controller's address, the secret, the port, `tun.enable` from the override; beside a foreign TUN an interface and servers for the proxies' own names; everything else as the override shows it over the base |
| Config.LayeredShows | src-tauri/src/config.rs:1209-1243 | the same of the layering as a function |
| Config.ShowsOnlyOne | src-tauri/src/config.rs:1209-1243 | and no other runtime shows that |
| Config.ConfigIsAcceptedExactly | src-tauri/src/config.rs:1099-1124 | what a configuration is accepted by, entry by entry |
| Config.DnsIsAcceptedExactly | src-tauri/src/config.rs:1125-1168 | what a `dns` section is accepted by, entry by entry |
| Config.PortIsReadExactly | src-tauri/src/config.rs:1090-1097 | a stored port is read exactly if it is an integer from 1 to 65535 |
| Config.OverrideIsReadExactly | src-tauri/src/config.rs:619-639 | which runtime override files are readable |
| Config.ApplyOutbound | src-tauri/src/config.rs:1251-1287 | the in-place outbound edits compute the outbound layer |
| Config.SwitchTun | src-tauri/src/config.rs:1482-1530 | the override after a switch, entry by entry: on with the six fixed settings, `dns.enable` and the rest kept; off without a file |
| Config.SwitchesOnExactly | src-tauri/src/config.rs:1500-1530 | switching on succeeds if and only if both sections can be edited and the edited `dns` section is accepted |
| Config.SwitchOn | src-tauri/src/config.rs:1500-1529 | the same for the entries written when switching on |
| Config.SwitchOffDeletes | src-tauri/src/config.rs:1487-1499 | switching off always ends without an override file when the file is readable |
| Config.SwitchOnWrites | src-tauri/src/config.rs:1500-1529 | from no file or its own writing, switching on writes one fixed document |
| Config.OnIsOn | src-tauri/src/config.rs:1500-1529 | that document turns TUN on and is readable as an override |
| Config.TogglesStayOwn | src-tauri/src/config.rs:1482-1530 | any run of switches from no file leaves no file after an off and the same file after an on |
| Dns.StoredThenShown | src-tauri/src/config.rs:1710-1729 | settings that could be stored read back unchanged from every profile that was buildable, except that `enabled` reads true while this program's override has TUN on |
| Dns.StoredKeepsTheRest | src-tauri/src/config.rs:1718-1729 | storing touches the `dns` section only, and there only the seven managed entries |
| Dns.LayersStayAccepted | src-tauri/src/config.rs:1175-1243 | a profile that was buildable stays buildable after storing |
| Dns.LayersShow | src-tauri/src/config.rs:1209-1243 | layering shows the base's DNS settings, `enable` forced on by an active override |
| Dns.CarriedIsShown | src-tauri/src/config.rs:1341-1378 | decoding inverts encoding |
| Dns.CarriesExactly | src-tauri/src/config.rs:1380-1436 | the seven entries under which the settings are stored |
| Dns.ShownExactly | src-tauri/src/config.rs:1341-1378 | the settings read from a section, with the default of each that is missing or of the wrong kind |
| Dns.StoresExactly | src-tauri/src/config.rs:1718-1729 | settings can be stored in an accepted local override if and only if both modes are known ones |
| Dns.TextsAreKept | src-tauri/src/config.rs:1349-1360 | a list of texts is read in full |
| Dns.DnsValueCarries | src-tauri/src/config.rs:1380-1436 | encoding writes all seven entries |
| Dns.MergeCarries | src-tauri/src/config.rs:645-658 | an overlay's managed entries survive the merge |
| CoreRecovery.AtMostFourPerWindow | src-tauri/src/service.rs:1990-2015 | in any ordered history, with attempts, failures, ready sightings and restarts anywhere, no half-open window of 600 seconds since the last healthy minute holds more than four failures recorded while the policy is not suspended; so no more than four at all if none was recorded while it was |
| CoreRecovery.FifthFailureIsLate | src-tauri/src/service.rs:1990-2015 | of the failures since the last healthy minute recorded while the policy is not suspended, each and the fourth one after it lie at least 600 seconds apart, whatever else is recorded in between |
| CoreRecovery.CountIsStreak | src-tauri/src/service.rs:1990-2036 | in every ordered history the stored count is the streak, up to four, of the failures since the last healthy minute: a core seen ready, or its record read back, at least 60 seconds after it was first seen ready since the last failure |
| CoreRecovery.SightingForgivesExactly | src-tauri/src/service.rs:2017-2036 | a ready sighting leaves the fresh state if and only if nothing stands, the last failure lies 600 seconds back, or 60 seconds have passed since the core was first seen ready after it |
| CoreRecovery.LastErrorIsShown | src-tauri/src/service.rs:1990-1999 | while a failure counts the state shows the first 512 characters of the last error |
| CoreRecovery.AllStand | src-tauri/src/service.rs:2017-2036 | without a healthy minute every failure stands |
| CoreRecovery.TallyStep | src-tauri/src/service.rs:1947-2036 | each kind of event keeps the tally of state, failures and ready sightings |
| CoreRecovery.TightStreak | src-tauri/src/service.rs:1990-2015 | failures within one window all count |
| CoreRecovery.Supervise | src-tauri/src/service.rs:3966-4138 | the monitor's loop of automatic starts, ready sightings and failures of its own over the mutable state ends in exactly the state of the history its turns write, with exactly that history's failures and failed starts |
| CoreRecovery.HistoryIsUnsuspendedExactly | src-tauri/src/service.rs:4097-4116 | a run records no failure while the policy is suspended if and only if the monitor finds no core lost then; failed starts never do |
| CoreRecovery.SupervisedStartsAreBounded | src-tauri/src/service.rs:3966-4138 | since the last healthy minute no window holds more than four failed automatic starts, wherever the monitor's own failures fall, and no more than four failures of any kind if the monitor has found no core lost while the policy was suspended |
| CoreRecovery.LossBreaksTheBound | src-tauri/src/service.rs:4097-4116 | four failed starts, and a fifth failure recorded by the monitor eleven seconds later, all within one window |
| CoreRecovery.FailedStartsAreSpread | src-tauri/src/service.rs:3036-3059 | a failed automatic start and the fourth one after it lie at least 600 seconds apart |
| CoreRecovery.FourInARowExactly | src-tauri/src/service.rs:1990-2015 | a failure is recorded while the policy is suspended if and only if it is a fifth or later one in a row |
| CoreRecovery.AllAreCountedExactly | src-tauri/src/service.rs:1990-2015 | since the last healthy minute no failure was recorded while the policy was suspended if and only if every failure that stands is one of those that can raise the count |
| CoreRecovery.FourFailuresSuspend | src-tauri/src/service.rs:1999-2001 | while the policy is not suspended the fourth last failure lies at least a window in the past |
| CoreRecovery.RestartIsTransparent | src-tauri/src/service.rs:1902-1945 | restarting answers an attempt as the running policy would, except exactly when a suspended core has been healthy long enough that the restart alone lifts the suspension |
| CoreRecovery.RestartsAreInvisible | src-tauri/src/service.rs:1902-1945 | restarts, however many and wherever they fall in any ordered history, change no later answer unless one meets a healthy mark |
| CoreRecovery.RestartReadsBack | src-tauri/src/service.rs:2081-2106 | save and load give back the state, or the fresh one when it has expired |
| CoreRecovery.LoadedIsBounded | src-tauri/src/service.rs:1902-1945 | whatever the file holds, what is read is within the policy's bounds |
| CoreRecovery.RecordIsUsedExactly | src-tauri/src/service.rs:1902-1945 | a record is used if and only if it has this format, one to four failures, the last less than 600 seconds back, and has not been healthy for 60 seconds; its count and times are then kept |
| CoreRecovery.AgreementIsKept | src-tauri/src/service.rs:1952-2036 | states that agree up to expiry still agree after the same event |
| CoreRecovery.ReachableIsSane | src-tauri/src/service.rs:1990-2036 | suspension, count and retry time of every reachable state fit together |
| CoreRecovery.CoreRecoveryState.RecordFailure | src-tauri/src/service.rs:1990-2015 | the whole new state after a failure, and its consistency |
| CoreRecovery.CoreRecoveryState.MarkReady | src-tauri/src/service.rs:2017-2036 | the whole new state after a ready sighting; no change is reported when nothing changed |
| CoreRecovery.CoreRecoveryState.AllowAttempt | src-tauri/src/service.rs:2359-2378 | an expired record is dropped before the question is answered |
| CoreRecovery.CoreRecoveryState.ResetIfExpired | src-tauri/src/service.rs:1947-1958 | only an expired record is dropped |
| Reconciliation.ConvergesInTime | src-tauri/src/reconciliation.rs:87-147 | from any state of the reconciler, at most `lost` vain mutations and `hidden` unclear turns leave 4 * (lost + 1) + hidden + 1 turns enough to reach the wanted state |
| Reconciliation.Converges | src-tauri/src/reconciliation.rs:87-184 | the ranking behind it: turns still needed from each state |
| Reconciliation.BoundIsExact | src-tauri/src/reconciliation.rs:87-147 | one turn fewer may not be enough, for every number of lost mutations |
| Reconciliation.ConfirmedRunsIssueSparsely | src-tauri/src/reconciliation.rs:87-147 | n observations of a run whose mutations are all confirmed issue at most ceil(n / 4) of them, and the counter stays at most 3 |
| Reconciliation.IssuesAreBounded | src-tauri/src/reconciliation.rs:87-184 | with unconfirmed mutations the bound grows by three observations for each |
| Reconciliation.StaleCallsAreInvisible | src-tauri/src/reconciliation.rs:87-184 | calls of another generation, interleaved anywhere, change neither the state nor any other answer |
| Reconciliation.RequestTun | src-tauri/src/service.rs:1218-1383 | the request loop with the mutable reconciler computes the run the theorems are about |
| Reconciliation.ReachedIsTrue | src-tauri/src/service.rs:1226-1272 | a run that reports success is right about the Service's state |
| Reconciliation.ReachedIsLeftAlone | src-tauri/src/reconciliation.rs:108-112 | no mutation at all is issued while the Service already is as wanted |
| Reconciliation.TunReconciler.Observe | src-tauri/src/reconciliation.rs:87-147 | decision and whole new state of an observation |
| Reconciliation.TunReconciler.RecordMutation | src-tauri/src/reconciliation.rs:149-184 | decision and whole new state of a recorded outcome |
| Reconciliation.DecidesExactly | src-tauri/src/reconciliation.rs:87-147 | when an observation leads to which decision: a foreign TUN before a broken channel before the target, and a mutation only to a ready Service in the opposite state |
| Reconciliation.RemembersExactly | src-tauri/src/reconciliation.rs:125-176 | what is remembered of an observation and of a mutation's outcome |
| Reconciliation.AcknowledgesExactly | src-tauri/src/reconciliation.rs:149-185 | what a caller is told of an outcome |
| Reconciliation.EndsExactly | src-tauri/src/service.rs:1226-1355 | which turn ends a request on a foreign TUN, as failed, or as reached |
| Reconciliation.IssuesExactly | src-tauri/src/service.rs:1281-1292 | which turn sends a mutation |
| Reconciliation.SentAgainExactly | src-tauri/src/service.rs:1293-1355 | a mutation without effect is sent again at the next plain report if and only if it was not acknowledged |
| Reconciliation.RepliesExactly | src-tauri/src/service.rs:1293-1355 | what is made of each reply of the Service |
| SystemProxy.SystemProxy.Serve | src-tauri/src/system_proxy.rs:837-1051 | with no other writer meanwhile, any sequence of enables, each with at most one failing operation, and of disables and restarts without one keeps the original settings in force or on record; after a disable exactly the five original values are back and no record is left; and an unhindered final enable leaves MioProxy's settings in force with the original on record |
| SystemProxy.SystemProxy.Enable | src-tauri/src/system_proxy.rs:877-1051 | whatever other programs write meanwhile, no write starts unless the two readings right before it are equal and show every proxy off, or one to five steps of this very enable. The settings it writes from are those just seen, or those on record when it resumes its own pause. If none of them writes during the two bursts themselves nothing is mixed: the registry ends as it was seen, at a step of this enable, or with another program's last write. From the second look on undisturbed, one failure leaves the settings as seen or fully enabled; undisturbed throughout, they are also recoverable at every crash Without failures, undisturbed and with the port held throughout by the ready core it succeeds if and only if every proxy was off or the settings were MioProxy's own on record; the five values are then 1, the endpoint, the user's bypass list or `<local>`, and nothing else. A success has just read MioProxy's own settings |
| SystemProxy.SystemProxy.TakeOver | src-tauri/src/system_proxy.rs:925-1041 | record first, look again, write, verify, and undo on failure; the conditions count from the second look only |
| SystemProxy.SystemProxy.Commit | src-tauri/src/system_proxy.rs:968-1041 | the writes, their verification and the records, from the second look on; a failed enable drops the record it made |
| SystemProxy.SystemProxy.Prepare | src-tauri/src/system_proxy.rs:933-967 | a change between the two looks stops the enable without a write |
| SystemProxy.SystemProxy.WriteVerified | src-tauri/src/system_proxy.rs:968-1038 | undisturbed in the two bursts and cut at any write, the enable ends with exactly the five values from before, its own step, or what another program wrote last |
| SystemProxy.SystemProxy.UndoEnable | src-tauri/src/system_proxy.rs:968-975 | the rollback restores exactly the prior values if listeners are the core's own and nothing fails |
| SystemProxy.SystemProxy.RestoreFailedEnable | src-tauri/src/system_proxy.rs:474-513 | under any interleaving a rollback writes only after two readings in a row that show the same step of its own enable; undisturbed from the second of them to its last write, it restores exactly the settings of before or leaves the registry alone; disturbed there, what is left is given write by write |
| SystemProxy.MatchesKnownStep | src-tauri/src/system_proxy.rs:420-454 | the sequence of comparisons accepts exactly the states after one to five of the writes |
| SystemProxy.StepStillOwned | src-tauri/src/system_proxy.rs:456-472 | a step counts as owned exactly when it is such a state and no foreign process listens |
| SystemProxy.FullyWrittenIsTheLastStep | src-tauri/src/system_proxy.rs:394-418 | the separate test for a finished enable accepts exactly step five |
| SystemProxy.EnableSteps | src-tauri/src/system_proxy.rs:134-151 | the five values after each number of enabling writes |
| SystemProxy.FullyOnShows | src-tauri/src/system_proxy.rs:134-151 | the five values of a finished enable |
| SystemProxy.StatesExactly | src-tauri/src/system_proxy.rs:249-310 | off, running and paused settings, value by value |
| SystemProxy.RestoreValues | src-tauri/src/system_proxy.rs:113-132 | the five values after each number of restoring writes |
| SystemProxy.CutEnableRecovers | src-tauri/src/system_proxy.rs:612-656 | a crash after k enabling writes is undone at the next start if and only if k is not one or the original already named the endpoint |
| SystemProxy.CutRestoreIsAbandoned | src-tauri/src/system_proxy.rs:612-656 | a restore cut after any write is never resumed; the next start drops the record |
| SystemProxy.EnablingAt | src-tauri/src/system_proxy.rs:134-151 | after any number of enabling writes the original is on record |
| SystemProxy.RollingBackAt | src-tauri/src/system_proxy.rs:474-513 | and after any number of writes of the rollback too |
| SystemProxy.SystemProxy.Disable | src-tauri/src/system_proxy.rs:837-860 | settings are given back only right after a reading that shows MioProxy's own; success restores the original and drops the records; during an update's pause it only drops them |
| SystemProxy.SystemProxy.EndSession | src-tauri/src/system_proxy.rs:837-856 | the same for a given record |
| SystemProxy.SystemProxy.RecoverStale | src-tauri/src/system_proxy.rs:612-656 | a start after a crash gives back what is MioProxy's and drops the record otherwise; with the core running it keeps the settings and stores the record again |
| SystemProxy.SystemProxy.Pause | src-tauri/src/system_proxy.rs:714-757 | pausing keeps the session recoverable under any failure; a second pause answers no and never overwrites the update's record |
| SystemProxy.SystemProxy.RestoreAfterUpdate | src-tauri/src/system_proxy.rs:759-831 | from a pause the running settings come back exactly, or the restore is put off; called while running it reports a take-over and drops the records |
| SystemProxy.SystemProxy.UpdateApplication | src-tauri/src/system_proxy.rs:714-835 | pause, pause, restart and restore is the identity on the five values |
| SystemProxy.SystemProxy.RestoreFromUpdate | src-tauri/src/system_proxy.rs:759-798 | the update's own record decides first |
| SystemProxy.SystemProxy.RestoreFromSession | src-tauri/src/system_proxy.rs:799-830 | without an update's record a paused session's original is written back and its record dropped, or everything is left for later |
| SystemProxy.SystemProxy.PauseOwned | src-tauri/src/system_proxy.rs:725-756 | a pause that fails by one operation leaves the running settings, and its own record gone or never written |
| SystemProxy.SystemProxy.WriteAll | src-tauri/src/system_proxy.rs:113-151 | a burst that fails has made some first part of its writes, in order, each over what other programs had written by then |
| SystemProxy.SystemProxy.RestoreListenerPid | src-tauri/src/system_proxy.rs:549-567 | the recorded listener exactly while it holds the port alone or nobody does, else the managed core if it does |
| SystemProxy.SystemProxy.Refresh | src-tauri/src/system_proxy.rs:914-923 | an enable while enabled changes no setting |
| CoreUpdate.Installation.SurviveCrashes | src-tauri/src/service.rs:2186-2190 | any number of service lives, each recovering, possibly installing, and crashing between any two steps: what the next start finds is a whole executable, the first one or one that proved healthy; without failures and crashes it is in place, the last one found healthy |
| CoreUpdate.Installation.Install | src-tauri/src/service.rs:2916-3006 | at every durable state the old executable survives until the backup is removed, and from then on the new one is in place; an unhealthy one is rolled back |
| CoreUpdate.Installation.Replace | src-tauri/src/core_update.rs:762-804 | an existing backup is never overwritten; the old executable survives every step; success puts the new one in place with the old one in the backup |
| CoreUpdate.Installation.Stage | src-tauri/src/core_update.rs:779-787 | only the replacement is touched while it is copied |
| CoreUpdate.Installation.Swap | src-tauri/src/core_update.rs:788-803 | the first rename is taken back when the second fails; one failing operation leaves the old executable in place |
| CoreUpdate.Installation.Rollback | src-tauri/src/core_update.rs:806-815 | the backup survives until it is the core again |
| CoreUpdate.Installation.Finalize | src-tauri/src/core_update.rs:817-824 | the backup is the only thing removed |
| CoreUpdate.Installation.RecoverOrphan | src-tauri/src/core_update.rs:826-842 | an orphaned backup becomes the core again, and every crash on the way can be recovered the same way |
| CoreUpdate.HandoverIsTrusted | src-tauri/src/core_update.rs:762-842 | at each moment of a handover the old or the new executable survives whole |
| Profiles.Registry.Serve | src-tauri/src/profiles.rs:512-652 | any interleaving of additions, finished downloads (begun at any earlier time), removals and applications keeps registry, files and active pointer consistent at every durable state, unless a generated id was in use or a download that is not committed has the name of a file in use |
| Profiles.Registry.FinishDownload | src-tauri/src/profiles.rs:573-611 | a download begun from a revision no longer current changes neither registry nor pointer and, when nothing fails, takes its file away again; one that commits changes exactly that profile's path, time and count, and its file replaces the previous one; without failures the disk stays consistent if and only if it commits or its new file name was in no use |
| Profiles.Registry.StoreDownload | src-tauri/src/profiles.rs:576-607 | the file is written before it is named; when nothing fails exactly the unused file, new or previous, is gone afterwards |
| Profiles.Registry.CommitStored | src-tauri/src/profiles.rs:579-607 | the stored file is named in the registry in place of the revision the download began from, consistently whatever its name, or nothing changes; without failures exactly if that revision is still current |
| Profiles.CommitDownload | src-tauri/src/profiles.rs:150-168 | exactly the revision the download began from is replaced |
| Profiles.FirstCommitWins | src-tauri/src/profiles.rs:143-168 | of two downloads begun from one revision the second cannot commit |
| Profiles.Registry.AddProfile | src-tauri/src/profiles.rs:512-538 | a new profile has a URL of its own, comes last and has no file; without failures it is added exactly if the URL is new |
| Profiles.Registry.RemoveProfile | src-tauri/src/profiles.rs:620-652 | pointer, registry and file go in an order that never leaves a dangling reference; without failures exactly if it is registered, and its file goes; one failing operation puts the pointer back |
| Profiles.Registry.ApplyProfile | src-tauri/src/config.rs:1580-1642 | an application points at a registered profile, and a failed load puts the previous pointer back; without failures exactly if the profile has its file and loads |
| Profiles.CommitKeepsConsistency | src-tauri/src/profiles.rs:150-168 | the committed registry names existing files and no longer names the previous one |
| Profiles.RemovalKeepsConsistency | src-tauri/src/profiles.rs:620-652 | a profile that is not active may leave, and its file is then named by nobody |
| Profiles.DroppingAFileExactly | src-tauri/src/profiles.rs:114-141 | a file may go if and only if no profile names it |
| Profiles.AdditionExactly | src-tauri/src/profiles.rs:520-536 | a profile may be added if and only if its generated id is not in use |
| Profiles.PathsAreDistinct | src-tauri/src/profiles.rs:95-112 | no two profiles share a file |
| SubscriptionNames.UsedNames.ProxyName | src-tauri/src/profiles.rs:218-240 | the name returned was not in use; the suffix search takes the first free one and stops by suffix &#124;used&#124; + 1 |
| SubscriptionNames.SomeNameIsFree | src-tauri/src/profiles.rs:233-239 | among the first &#124;used&#124; + 1 candidates one is free |
| SubscriptionNames.TakenNames | src-tauri/src/profiles.rs:233-239 | as many different names were found taken as were tried |
| SubscriptionNames.NumberedIsInjective | src-tauri/src/profiles.rs:234-234 | different suffixes print different names, none of them the bare candidate |
| Text.DecimalIsInjective | src-tauri/src/profiles.rs:234-234 | decimal printing is injective |
| Text.DecimalReads | src-tauri/src/profiles.rs:225-234 | a printed number reads back as the number, without a leading zero |
| Text.SpacesExactly | src-tauri/src/profiles.rs:224-224 | which characters are white space |
| SubscriptionNames.ConvertSubscription | src-tauri/src/profiles.rs:408-467 | a subscription converts exactly when every link is usable and there is one; then the proxies are the links' own settings in order, each under its fragment or its line's number, numbered when taken; all names are distinct and none is DIRECT; the group lists them in order and DIRECT last; and every other entry of the document is the fixed one |
| SubscriptionNames.ParseLink | src-tauri/src/profiles.rs:255-406 | a link's proxy: its settings under a name not used before |
| SubscriptionNames.LinksAreAll | src-tauri/src/profiles.rs:412-418 | the links are all lines that hold one, in order |
| SubscriptionNames.ConvertedShows | src-tauri/src/profiles.rs:423-467 | the document around the proxies, entry by entry |
| SubscriptionNames.ConvertedIsValid | src-tauri/src/config.rs:1099-1173 | every converted subscription passes the profile validation |
| SubscriptionNames.NamesOf | src-tauri/src/profiles.rs:423-428 | the group's names are read back from the finished proxies |
| ServiceTun.ServiceRuntime.MayEnable | src-tauri/src/service.rs:3445-3450 | exactly: rights, then a look for foreign TUNs that neither fails nor finds one |
| ServiceTun.ServiceRuntime.CoreIsOurs | src-tauri/src/service.rs:3626-3630 | exactly: the look succeeds, and the core is managed or no core runs |
| ServiceTun.ServiceRuntime.ConfirmCore | src-tauri/src/service.rs:3654-3662 | a managed core that is not ready gives None, a failed look an error, and else whether the core is ready |
| ServiceTun.ServiceRuntime.ConfirmOff | src-tauri/src/service.rs:3703-3720 | a confirmation means that the controller runs with TUN off |
| ServiceTun.ServiceRuntime.OwnedCoreReady | src-tauri/src/service.rs:2605-2613 | a failed look is an error, else the answer |
| ServiceTun.SessionIsInvisible | src-tauri/src/service.rs:3504-3519 | writing the recovery file changes nothing about whether the launch can succeed |
| ServiceTun.RebuildSeesSameBase | src-tauri/src/config.rs:966-979 | migrating the base changes nothing about what it builds |
| GuiTun.TunController.CheckBaseline | src-tauri/src/tun.rs:775-797 | exactly what a session's start demands: administrator rights, a look for foreign TUNs that succeeds and finds none, an own and managed core and a controller without TUN; a refusal goes unrecorded exactly if that look failed |
| GuiTun.TunController.WritePersisted | src-tauri/src/tun.rs:648-657 | the recovery file holds the session in memory |
| GuiTun.TunController.ClearPersisted | src-tauri/src/tun.rs:268-272 | the recovery file may go only when TUN is off in both files |
| GuiTun.TunController.LoadStable | src-tauri/src/tun.rs:695-703 | a confirmed load means the controller runs `config.yaml` |
| GuiTun.TunController.SessionToEnd | src-tauri/src/tun.rs:1004-1008 | the session to end is the one on file, and the one in memory exactly if there is no file |
| GuiTun.TunController.Stage | src-tauri/src/config.rs:1594-1598 | a candidate is loaded only by a ready core, and dropped otherwise |
| GuiTun.SessionIsInvisible | src-tauri/src/tun.rs:808-824 | writing the recovery file changes nothing about whether the launch can succeed |
| Host.ConfigKeeps | src-tauri/src/config.rs:1042-1051 | replacing `config.yaml` keeps the crash invariant when TUN is off in it or the recovery file exists |
| Host.OtherFilesKeep | src-tauri/src/config.rs:932-938 | the active pointer and the candidate do not matter to the crash invariant |
| Host.Machine.Write | src-tauri/src/config.rs:434-497 | a write is atomic: the next state or the old one |
| Host.Machine.Load | src-tauri/src/service.rs:3325-3330 | a rejected PUT changes nothing |
| Host.Machine.LoadCandidate | src-tauri/src/service.rs:3299-3304 | the geodata preparation may refuse a candidate before the PUT |
| Host.Machine.ReadPort | src-tauri/src/config.rs:1090-1097 | an unreadable configuration counts as one without a port |
| Host.Machine.DropCandidate | src-tauri/src/service.rs:3346-3346 | only the candidate is removed, and a failure is ignored |
| TunSession.SwitchedOnIsOn | src-tauri/src/config.rs:1500-1529 | whatever the override held, switching on turns the flag on |
| TunSession.NoSessionMeansOff | src-tauri/src/service.rs:3439-3734 | without a recovery file everything is off |
| CoreRecovery.CoreRecoveryState.Reset | src-tauri/src/service.rs:1960-1962 | a reset gives the fresh state |
| CoreRecovery.EpisodeAppended | src-tauri/src/service.rs:3966-4138 | what one turn of the monitor adds to the history, to its failures and to the state |
| CoreRecovery.RecordsThePast | src-tauri/src/service.rs:1990-2036 | no reachable state records a moment that lies ahead |
| CoreRecovery.FailuresAscend | src-tauri/src/service.rs:1990-2015 | failures of any ordered history are recorded in order of time |
| Reconciliation.TunReconciler.constructor | src-tauri/src/reconciliation.rs:69-77 | a new reconciler has nothing pending |
| SystemProxy.SystemProxy.Survey | src-tauri/src/system_proxy.rs:880-895 | ownership is read after the listener is confirmed, and nothing is written |
| SystemProxy.SystemProxy.Verify | src-tauri/src/system_proxy.rs:995-1013 | a failed verification has a failed look or a foreign listener behind it |
| SystemProxy.SystemProxy.WriteEnable | src-tauri/src/system_proxy.rs:134-151 | a cut enable has made some first part of its five writes, and the original is on record all along |
| SystemProxy.SystemProxy.GiveBack | src-tauri/src/system_proxy.rs:113-132 | a completed restore leaves exactly the settings asked for, a cut one some first part of its writes |
| SystemProxy.SystemProxy.GiveOriginal | src-tauri/src/system_proxy.rs:113-132 | while the original is written back it stays on record |
| SystemProxy.SystemProxy.HandBack | src-tauri/src/system_proxy.rs:843-845 | the writes follow the reading that allowed them |
| SystemProxy.SystemProxy.Inspect | src-tauri/src/system_proxy.rs:839-843 | settings count as MioProxy's only by a reading made now |
| SystemProxy.SystemProxy.OwnsStep | src-tauri/src/system_proxy.rs:482-492 | the listeners are looked at anew for each reading |
| SystemProxy.SystemProxy.SwitchOff | src-tauri/src/system_proxy.rs:727-741 | the pausing write, confirmed by a reading, keeps the session recoverable |
| SystemProxy.SystemProxy.GoBack | src-tauri/src/system_proxy.rs:743-743 | writing the running settings back passes through running or paused states only |
| SystemProxy.SystemProxy.Managed | src-tauri/src/system_proxy.rs:569-584 | the record in memory goes before the one on file |
| SystemProxy.SystemProxy.StoreManaged | src-tauri/src/system_proxy.rs:590-599 | memory follows the file |
| SystemProxy.SystemProxy.Forget | src-tauri/src/system_proxy.rs:601-610 | both records go, or neither |
| SystemProxy.SystemProxy.ReadSettings | src-tauri/src/system_proxy.rs:85-95 | a reading is logged as what the registry holds at that moment |
| SystemProxy.SystemProxy.ManagedListener | src-tauri/src/system_proxy.rs:515-547 | a managed listener is confirmed only if every listener on the port is that process |
| SystemProxy.RestoringIsCrashable | src-tauri/src/system_proxy.rs:113-132 | every crash while the original is given back leaves it on record |
| SystemProxy.EnablingIsCrashable | src-tauri/src/system_proxy.rs:134-151 | every crash while enabling leaves it on record |
| SystemProxy.RollingBackIsCrashable | src-tauri/src/system_proxy.rs:474-513 | every crash while an enable is rolled back leaves it on record |
| SystemProxy.ResumingIsCrashable | src-tauri/src/system_proxy.rs:772-774 | every crash while a paused session is resumed leaves it recoverable |
| CoreUpdate.Installation.CopyStaged | src-tauri/src/core_update.rs:785-786 | a copy that fails may leave part of itself, in the replacement only |
| Profiles.Position | src-tauri/src/profiles.rs:623-626 | the first profile with this id, or none |
| Profiles.PathsTellIdsApart | src-tauri/src/profiles.rs:95-112 | a file name determines the profile id and the suffix it was made from |
| Profiles.IdsAreSafe | src-tauri/src/profiles.rs:95-101 | an id is letters, digits, `-` and `_` and nothing else |
| Profiles.PointingIsConsistent | src-tauri/src/config.rs:932-951 | the pointer may be cleared, or name a registered profile |
| Profiles.Registry.RemoveFile | src-tauri/src/profiles.rs:114-141 | only a file no profile names is removed |
| Profiles.Registry.Publish | src-tauri/src/profiles.rs:53-60 | each write leaves a consistent disk |
| SubscriptionNames.UsedNames.constructor | src-tauri/src/profiles.rs:410-411 | DIRECT is taken from the start |
| SubscriptionNames.DnsDefaultsAreValid | src-tauri/src/profiles.rs:434-440 | the generated `dns` section passes validation |
| ServiceTun.OlderSessionBuilds | src-tauri/src/service.rs:3755-3768 | an older session's profile builds over its saved override whatever port is stored, so each step of its recovery leaves it recoverable |
| ServiceTun.OffBuild | src-tauri/src/config.rs:1175-1207 | a build without the runtime override succeeds over every fit base |
| ServiceTun.BuildHasBase | src-tauri/src/config.rs:1175-1207 | what a committed build stores as the base is the source under the local override |
| GuiTun.RecoverableExactly | src-tauri/src/tun.rs:677-688 | with a readable base and override, a session is recoverable by the window process if and only if there is a base with an editable `tun` section |
| GuiTun.StartsOverEveryValidBase | src-tauri/src/tun.rs:799-835 | from no override a session starts over every valid base, even one whose `tun` section is not a mapping |
| GuiTun.NoBaseNoSession | src-tauri/src/tun.rs:684-704 | and without a base it can neither start nor be recovered |
| GuiTun.FitEnds | src-tauri/src/tun.rs:849-891 | a session of a fit disk can always be ended |
| GuiTun.BaselessSessionIsStuck | src-tauri/src/tun.rs:684-686 | a session over files without any base is recovered by the service and not by the window process |
| Host.RestorableIsLayered | src-tauri/src/config.rs:1053-1059 | the active runtime is the layering of the base under the override that is read |
| Host.StoredBaseStays | src-tauri/src/config.rs:966-979 | a migrated base stands for the same value once stored, whatever the configuration becomes |
| Host.LocalKeeps | src-tauri/src/config.rs:1463-1476 | writing an older session's saved override back keeps a disk recoverable |
| TunSession.StoredSessionFits | src-tauri/src/service.rs:2446-2459 | the session on a fit disk can be recovered by its own profile |
| Yaml.BranchingMiddleSuffices | src-tauri/src/config.rs:645-658 | so the two groupings give the same tree when the middle layer branches or is silent wherever the top one branches |
| CoreRecovery.AnswersExactly | src-tauri/src/service.rs:1976-2036 | an attempt is allowed exactly if 15, 30 or 60 seconds have passed since the first, second or third failure of the streak, a window since the fourth or a later one, or the core has been seen ready since and the policy is not suspended |
| CoreRecovery.BackoffIsKeptExactly | src-tauri/src/service.rs:1976-2036 | every later attempt waits its turn if and only if the core has not been seen ready since the last failure, or the policy is suspended, or the wait is over already |
| CoreRecovery.ReadyCutsTheGap | src-tauri/src/service.rs:4047-4052 | a core left behind by a failed start and then seen ready makes the next attempt allowed at once, two seconds after the first failure |
| CoreRecovery.NextTurn | src-tauri/src/service.rs:3966-4138 | the state, the failures and the failed starts after one more turn |
| SystemProxy.SystemProxy.Run | src-tauri/src/system_proxy.rs:612-656 | one command of such a sequence, a restart included |
| SystemProxy.SystemProxy.Decide | src-tauri/src/system_proxy.rs:894-941 | an enable that may not take over writes nothing, one that is owned already changes no setting, and one that takes over writes from the settings just seen, or from those on record when it resumes its own pause; exactly when it succeeds |
| SystemProxy.SystemProxy.ConfirmStep | src-tauri/src/system_proxy.rs:480-509 | a rollback goes ahead only if both readings show the same step and every listener is the core's own |
| SystemProxy.LastOtherWriteDecides | src-tauri/src/system_proxy.rs:113-151 | of all writes of other programs during a burst the last one decides: it stands, with the rest of the burst on top |
| SystemProxy.OtherWriteSurvivesExactly | src-tauri/src/system_proxy.rs:113-151 | a write that falls into a burst survives if and only if it agrees with every value the burst has still to write |
| SystemProxy.WriteInTheGapIsLost | src-tauri/src/system_proxy.rs:498-511 | a proxy that another program switches on between the confirming reading and the first write of a rollback is gone afterwards |
| SystemProxy.RacedAlone | src-tauri/src/system_proxy.rs:113-151 | undisturbed, a burst leaves exactly its writes |
| SystemProxy.PausedIsAbandoned | src-tauri/src/system_proxy.rs:612-636 | a session still paused when the recovery runs keeps its settings and loses its record, so the original is back if and only if the paused settings were the original ones |
| SystemProxy.SystemProxy.StartAfterUpdate | src-tauri/src/lib.rs:124-129 | the restore after an update and the recovery that follows at once: with the port free or the recorded process's the original is back, with another process on the port the restore is put off and the recovery drops the record |
| SystemProxy.SystemProxy.WriteEach | src-tauri/src/system_proxy.rs:113-151 | one write after another until one fails |
| SystemProxy.SystemProxy.WriteAndVerify | src-tauri/src/system_proxy.rs:968-1013 | what the five writes left, verified by a reading and by the listeners |

## Left out

- Tagged YAML values and YAML, JSON, Base64, URL and ZIP parsing: the model works on decoded values, and a file is missing, blank, undecodable or a document.
- Error texts, diagnostics and log records: an operation fails or succeeds.
- Network snapshots, adapters and routes, and the stability wait of the core: they are operations that succeed or fail.
- Geodata preparation with its repair retry: one operation that succeeds or fails before a candidate is loaded.
- The outbound inspection: its result is a fixed parameter of a build.
- The default configuration written when `config.yaml` is missing at a core start.
- Interleaved commands of the service: they run one after another here, while `start_inner` (src-tauri/src/service.rs:3081-3086) restores the active runtime without holding the TUN transition lock and can fall between the steps of an enable or a rollback.
- Downloads during a TUN run: the profile files an application reads stay fixed in ServiceTun and GuiTun; they change in Profiles.
- Joint runs of the window process and the service on the same files: they share no lock, so each protocol is proved alone.
- The controller's own behaviour: a PUT is atomic and a rejected one changes nothing.
- ControllerGraceState (the grace period before an unreachable controller counts as a failure): a counter with one bound, it would add only easy members.
- Outside services in `update.rs`, `migration.rs`, `geodata.rs` and `outbound.rs`, and everything in the window's interface.
- Reparse-point checks and directory creation: they can only make an operation fail, which every operation already may.
- Clocks that run backwards: histories of the restart policy are ordered in time.
- Corrupt restart-policy files, which make the service refuse to load them: loading is modelled from a decoded record.
- A manual start, a stop or a foreign core, which reset the restart policy: histories are those between two resets.
- GuiTun.TunController.CheckBaseline: the administrator, adapter and ownership checks are single answers from outside.
- SystemProxy.SystemProxy.ReadSettings: the five values are read in one step, while src-tauri/src/system_proxy.rs:85-95 reads them one by one, so a write of another program between two of those reads is not modelled.
- SystemProxy.SystemProxy.Serve: stated for runs in which each enable has at most one failing operation and the rest none, and in which nobody else writes and the mixed port is the core's, because a failed restore and a foreign listener do lose the original, as the cut lemmas and the contract of StartAfterUpdate say.
- SystemProxy.SystemProxy.UpdateApplication: the update's other steps (stopping the service, the installer) do not touch the proxy settings and are not modelled.
- Profiles.Registry.ApplyProfile: only the effect on the active pointer; the files an application writes are the subject of Host and ServiceTun.
- SubscriptionNames.ConvertSubscription: the protocol-specific entries of a proxy are given with the link, since only its name is shared between proxies.
- CoreUpdate.Installation.Install: whether the new core is healthy is an answer from outside, and the status records and the staging file are not modelled.

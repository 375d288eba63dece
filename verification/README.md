# Verified models of the DPU agent, its telemetry processors and the instance allocator

This project models the parts of the infrastructure controller whose correctness depends on order, failure or
arithmetic, and proves what they guarantee for every input, every run and every interleaving:

- **Configuration convergence** (`AgentProtocol`, `AgentLoop`, `AgentFiles`, `Health`, `BgpHealth`, `ConfigVersions`).
  A fetcher stores a network configuration and the instance metadata in two separate cells; the main loop reads them at different moments, applies
  the configuration and acknowledges versions to the server. Both processes are modelled as interleaved atomic steps,
  with failed fetches, failed updates and agent restarts at any moment.
- **Transactional configuration files** (`ConfigFiles`, `DhcpFiles`, `DhcpRuns`, `DhcpCrashes`, `NvueFiles`,
  `Bridging`, `NetworkReset`). The write, back up, reload and roll back protocol over a disk: single calls in which any
  file operation may fail, whole runs of calls in which commands fail or work in any order, rendering that stops at any
  point, and crashes.
- **Instance allocation** (`InstanceAllocator`). Virtual functions are dealt to physical functions in chunks and the
  total is checked afterwards.
- **Telemetry counters** (`TelemetryKeys`, `TelemetryCounts`, `TelemetryPipeline`). Counter keys that are printed and
  parsed back, filters, a bounded channel between a scraper and a drainer, and self-counts shared by all processors.
- **Printers and parsers** (`ShellQuoting`, `PuntStats`) and the smaller inputs the agent assembles (`NvueInput`,
  `InfinibandConfig`).

`Text` and `Decimals` hold the standard-library text operations the code calls. Code that works by changing things
step by step is written as classes and methods, each proved against a function of the old state; the theorems are
lemmas about those functions. Commands, the network, clocks, rendered templates, regular expressions and the outcome
of file operations are parameters.

Check the whole project with `dafny verify dfyconfig.toml`.

## Where the code and its comments disagree

The model follows the code. Each point names the lemma that states it; where the code can miss an expectation, the lemma
says exactly when.

- `update_dhcp` deletes the backup of the server file before `do_post` could restore it, so a failed reload normally
  removes that file instead of reverting it; exactly when it does not, and exactly when the next call tries again, is
  stated by `DhcpRuns.FailedReloadLosesServerFile`.
- Nor is what it restores always whole. If the backup copy of the server file breaks off while another file changes, a
  failed reload installs the half-written backup (`DhcpFiles.TornBackupIsInstalled`); exactly when the server file is
  neither the old nor the new one is stated by `DhcpFiles.ServerIsWholeExactlyWhen`.
- A comment says that a reload must stop the relay once its configuration is deleted, but blanking the relay file or
  removing the NVUE relay file counts for nothing: with current server files and no leftover the call reports no change
  and no later call reloads. Exactly when is stated by
  `DhcpRuns.RelayChangeIsLostExactlyWhen` and, whatever fails, by `DhcpFiles.RelayChangesSilentlyExactlyWhen`;
  `DhcpRuns.RelaysGoUnannounced` is a family of such disks.
- A write of a DHCP file that fails is only logged, so the configuration is acknowledged although the file was never
  written (`DhcpFiles.SuccessUnderFaults`, `AgentFiles.AcknowledgedMeansInstalled`).
- On a DPU whose DHCP server must be stopped, deleting a relay leftover restarts it
  (`DhcpFiles.CleanupRestartsStoppedServer`).
- A rendering failure loses a reload that was due, for good, exactly when everything that the failed call did not reach
  is current and no relay leftover remains (`DhcpRuns.RenderFailureLosesReload`).
- A crash between the writes and the reload is normally made up for by the next call, because the relay file's `.TMP` is
  left behind and counts as a leftover. The reload is lost exactly when that `.TMP` was not yet written, or already used
  up by replacing the relay file, and nothing else is pending
  (`DhcpCrashes.CrashLosesReload`). A failed reload is likewise forgotten if the agent crashes before the server file is
  moved aside (`DhcpCrashes.CrashAfterCommand`).
- A reload that fails during `reset` is never retried, since the file is blank by then
  (`NetworkReset.FailedResetIsNeverRetried`), and `reset` leaves backups that make the next `update_dhcp` call run a
  command (`NetworkReset.NoisyAfterReset`).
- On the admin network an NVUE configuration over the size limit that replaces another such file is applied again on
  every tick (`NvueFiles.AppliesUntilSuccess`).
- `cleanup` deletes one leftover per call. A stale backup can therefore survive it and be "restored" as the new bridging
  script (`Bridging.FailedRunKeepsScript`), and convergence can take four calls but no more (`DhcpRuns.FourNoisyCalls`,
  `DhcpRuns.UpdateConverges`).
- A bridging script that exits with an error is reported as an applied change (`Bridging.FailedRunKeepsScript`).
- A change to the bridging script is not reported as a change, so it neither delays the healthy report nor shortens the
  loop period: exactly the DHCP and NVUE updates do (`AgentLoop.EveryRunIsSafe`).
- A route server that is listed twice, or named like a switch session, is never healthy, whatever its session
  (`BgpHealth.NothingFoundExactlyWhen`).
- One processor reports the self-counts, and its cleanup hands the office on only if it exports no logs. After the
  cleanup of a reporter that does, no other processor ever reports them (`TelemetryPipeline.OfficeIsLostExactlyWhen`,
  `TelemetryPipeline.LostOfficeIsForever`).
- Addresses of virtual functions, of both families, are indexed within their chunk, so they repeat from one physical
  function to the next (`InstanceAllocator.VfAddressesArePositionalExactlyWhen`).
- The filter's comment leaves out the case of a filter that lists only types (`TelemetryCounts.CommentHoldsExactlyWhen`).
- A colon in a name or value can merge counters (`TelemetryKeys.ColonsMerge`). That clean dimensions never merge
  (`TelemetryKeys.KeysAreInjective`) is one-way: an unclean one need not merge with anything. The exact condition for
  reading a key back is that of `TelemetryKeys.KeyRoundTripExactlyWhen`.
- A punt counter of 2^63 or more is forwarded as a negative number (`PuntStats.ForwardedExactlyWhen`), so the sums
  declared monotonic are so exactly while no counter passes 2^63 (`PuntStats.SumsAreMonotonicExactlyWhen`).

## Model

| member | source | states |
|---|---|---|
| `AgentProtocol.AcksNeverGoBack` | crates/agent/src/main_loop.rs:541-777 | In every interleaving of the fetcher's two stores with the loop's two reads, with restarts and failures, acknowledged instance network versions never decrease if the server's do not. |
| `AgentProtocol.AcksFollowReplies` | crates/agent/src/main_loop.rs:719-723 | In every interleaving configurations are acknowledged in the order in which the server sent them, each under the version it was sent with. |
| `AgentProtocol.AcksAreNeverAhead` | crates/agent/src/main_loop.rs:732-777 | In every interleaving each acknowledged version stems from copies the server sent and is no newer than the applied configuration's, nor than the metadata copy read. |
| `AgentProtocol.MatchingCopiesMoveForward` | crates/agent/src/periodic_config_fetcher.rs:204-221 | Replies with matching readable copies and a non-decreasing version meet the hypothesis of the monotonicity theorem. |
| `AgentProtocol.EveryInterleavingIsSafe` | crates/agent/src/main_loop.rs:541-917 | The run invariant of the main loop (see `AgentLoop.EveryRunIsSafe`) holds in every interleaving since the latest restart. |
| `AgentProtocol.ReachableInv` | crates/agent/src/periodic_config_fetcher.rs:197-235 | What the loop holds or has acknowledged never comes from a later reply than the cells hold. |
| `AgentProtocol.FetcherState.SingleFetch` | crates/agent/src/periodic_config_fetcher.rs:180-238 | What an uninterrupted fetch leaves in both cells: nothing new if cancelled or failed, nothing at all if not found, otherwise the configuration sent and, of an instance with an id and three readable versions, exactly those three; it is the sequence of the three atomic fetcher steps. |
| `AgentProtocol.CopiesAreTheServers` | crates/agent/src/periodic_config_fetcher.rs:241-312 | In every interleaving the stored metadata, and any that an acknowledgement is based on, has as its three versions the three texts of one instance that the server sent; configurations likewise. |
| `AgentProtocol.AcksAreTheLoops` | crates/agent/src/main_loop.rs:719-777 | In every interleaving the acknowledgements end with those of the iterations since the latest restart, one for one. |
| `AgentProtocol.RestartForgets` | crates/agent/src/periodic_config_fetcher.rs:118-129 | Whenever the agent restarts and whatever follows, what it then acknowledges stems from replies received after the restart. |
| `AgentProtocol.UndisturbedReplyIsAcknowledged` | crates/agent/src/main_loop.rs:541-777 | A reply with matching readable copies that is fetched, stored, read and applied without a disturbance adds exactly one acknowledgement, of its own two versions. |
| `AgentLoop.EveryRunIsSafe` | crates/agent/src/main_loop.rs:466-494 | In every run, of every iteration: exactly when the network is reset, a configuration is applied, its version is acknowledged, a change and an error are reported, the instance versions and id are passed on, the report is up and healthy (from the probes), the loop slows down, and the agent dies. |
| `AgentLoop.IterationKeepsInv` | crates/agent/src/main_loop.rs:541-917 | One iteration from any safe history leaves a safe history. |
| `AgentLoop.AckIsNeverAhead` | crates/agent/src/main_loop.rs:725-777 | The acknowledged version is readable, one of the two copies received, at most both, and the configured text itself without a metadata copy. |
| `AgentLoop.LateOlderCopyGoesBack` | crates/agent/src/main_loop.rs:757-763 | Acknowledging without a metadata copy goes back later exactly when the copy that then arrives is older. |
| `AgentLoop.MainLoop.RunSingleIteration` | crates/agent/src/main_loop.rs:497-991 | The iteration, statement by statement, produces the specified event, the specified next loop state, and the active or idle period. |
| `AgentLoop.MainLoop.RunLoop` | crates/agent/src/main_loop.rs:462-494 | The loop's log and state are those of the specified run, including where it halts. |
| `AgentLoop.HealthIsExact` | crates/agent/src/main_loop.rs:829-846 | In both HBN modes the report of an iteration is up, and is healthy, exactly when the probes show it, with the settings that the configuration asks for. |
| `AgentLoop.RunStopsExactlyWhen` | crates/agent/src/main_loop.rs:466-494 | A run takes the rounds one by one and stops exactly at the first in which the agent dies or is asked to stop. |
| `AgentFiles.AcknowledgedMeansInstalled` | crates/agent/src/main_loop.rs:612-723 | Whatever fails, exactly which files hold what was rendered when an iteration acknowledges a configuration: the NVUE startup file always, each DHCP file exactly if it did before or its own write worked, the bridging script exactly if it did not run and exit with an error. |
| `AgentFiles.NvueSuccess` | crates/agent/src/ethernet_virtualization.rs:523-549 | Whatever fails, a successful NVUE update leaves exactly the rendered startup file. |
| `AgentFiles.ScriptSuccess` | crates/agent/src/ethernet_virtualization.rs:616-634 | Whatever fails, exactly when a successful bridging update leaves exactly the rendered script. |
| `AgentFiles.FailedScriptSparesNvue` | crates/agent/src/main_loop.rs:612-700 | After a failed bridging update no NVUE file is touched, whatever else happens. |
| `ConfigVersions.MinByTimestamp` | crates/config-version/src/lib.rs:189-199 | The result is one of its arguments and at most both, by timestamp and then number. |
| `ConfigVersions.ParseOfVersionString` | crates/config-version/src/lib.rs:252-307 | Every representable version survives printing and parsing. |
| `ConfigVersions.ReadsExactlyVersionTexts` | crates/config-version/src/lib.rs:255-307 | Exactly the trimmed texts of the form V, number, -T, number with numbers in range are read, and as those numbers. |
| `Health.UpExactlyWhen` | crates/agent/src/health.rs:97-116 | After a whole health check, HBN is up exactly when the container exists, `supervisorctl` answers and all expected services run; no later check changes that. |
| `Health.ChangeIsNeverHealthy` | crates/agent/src/health.rs:157-187 | A changed configuration always carries an alert, whichever early return the check takes. |
| `Health.HealthyImpliesUp` | crates/agent/src/main_loop.rs:829-846 | In both HBN modes a healthy report implies that HBN is up. |
| `Health.HealthyExactlyWhen` | crates/agent/src/health.rs:130-190 | A report is healthy exactly when the root disk is known and at most 85 percent full, container and services run, restricted mode holds if asked for, the DHCP server runs if included, `ifreload` is silent, the BGP daemon is enabled and its sessions are as expected, every expected file is there and large enough, and nothing just changed. |
| `Health.AlertsAreCounted` | crates/agent/src/health.rs:130-384 | For every outcome of the probes, how often each kind of alert is raised: one per service, peer and file that is not as it should be. |
| `Health.SuccessesAreCounted` | crates/agent/src/health.rs:130-384 | For every outcome of the probes, how often each kind of success is reported. |
| `Health.NvueApiExactlyWhen` | crates/agent/src/main_loop.rs:829-846 | Over the NVUE API the report is up, and healthy, exactly when the API answers. |
| `Health.DaemonEnabledExactlyWhen` | crates/agent/src/health/bgp.rs:72-107 | The BGP daemon counts as enabled exactly if the file contains `bgpd=yes` somewhere and `bgpd=no` nowhere. |
| `Health.HealthCheck` | crates/agent/src/health.rs:130-190 | The report built by pushing onto its lists is the specified one. |
| `Health.HealthReport.CheckHbnServicesRunning` | crates/agent/src/health.rs:193-244 | Appends one verdict per expected service, or one failure if the status cannot be had. |
| `Health.HealthReport.CheckDhcpServer` | crates/agent/src/health.rs:250-299 | Appends the verdict on the DHCP server, or one failure if the status cannot be had. |
| `Health.HealthReport.CheckDisk` | crates/agent/src/health.rs:473-557 | Appends the verdict on the root file system: critical exactly above 85 percent, a failure if its utilization is not known. |
| `Health.HealthReport.CheckBgpStats` | crates/agent/src/health/bgp.rs:26-70 | Appends nothing if the daemon is not enabled, and otherwise the verdict on the summary and one failure per switch, route server and unexpected peer that it finds. |
| `Health.HealthReport.CheckDaemonEnabled` | crates/agent/src/health/bgp.rs:72-107 | Appends the verdict on the daemons file. |
| `BgpHealth.NothingFoundExactlyWhen` | crates/agent/src/health/bgp.rs:109-290 | No finding exactly when the summary is readable, the expected uplinks exist and are up in each family that needs them, each route server is up, listed once and not named like a switch, and no other peer or dynamic peer exists. |
| `BgpHealth.DownPortIsFoundExactlyWhen` | crates/agent/src/health/bgp.rs:145-190 | Exactly which switch ports are found down, each once even if both families miss it. |
| `BgpHealth.TorSessionExactlyWhen` | crates/agent/src/health/bgp.rs:351-360 | Sessions of switches are exactly those named `p`, digits, and `_sf` or `_if`. |
| `BgpHealth.VerifySummary` | crates/agent/src/health/bgp.rs:109-143 | The findings collected from the two families are the specified ones. |
| `BgpHealth.BgpHealthData.CheckTorRoutes` | crates/agent/src/health/bgp.rs:145-190 | Adds the ports without an established session, and one error if there are fewer ports than demanded. |
| `BgpHealth.BgpHealthData.CheckIpv4` | crates/agent/src/health/bgp.rs:192-219 | The findings of the IPv4 family, from a fresh collection. |
| `BgpHealth.BgpHealthData.CheckEvpn` | crates/agent/src/health/bgp.rs:221-290 | The findings of the EVPN family: ports without route servers, otherwise the route servers that are down or already claimed, and whatever else is unexpected. |
| `Health.HealthReport.CheckFiles` | crates/agent/src/health.rs:321-384 | Appends the verdicts on the expected files, with the DHCP server file judged at the end. |
| `ConfigFiles.SidecarsNeverCollide` | crates/agent/src/ethernet_virtualization.rs:1637-1641 | Although sidecars replace the extension, no two of the eight files that the agent writes this way share a path in any role. |
| `ConfigFiles.FileSystem.Write` | crates/agent/src/ethernet_virtualization.rs:1350-1394 | The new disk and result for every pattern of failing operations. |
| `ConfigFiles.FileSystem.DoPost` | crates/agent/src/ethernet_virtualization.rs:717-771 | The new disk and result over any list of post actions. |
| `ConfigFiles.FileSystem.Cleanup` | crates/agent/src/ethernet_virtualization.rs:1615-1620 | Deletes the first leftover that it finds and can delete, and no other. |
| `ConfigFiles.CleanupDeletesFirst` | crates/agent/src/ethernet_virtualization.rs:1615-1620 | Of `.TEST`, `.TMP` and `.BAK` exactly the first that exists and can be deleted goes, and the result says whether one did. |
| `ConfigFiles.FileSystem.Del` | crates/agent/src/ethernet_virtualization.rs:1622-1635 | Removes one sidecar and says whether it was there. |
| `ConfigFiles.WriteIsAtomic` | crates/agent/src/ethernet_virtualization.rs:1350-1394 | Whatever operations fail, the live file is untouched or holds exactly the new contents, the old ones are then in the backup, and no other file changes. |
| `ConfigFiles.WorkingWrite` | crates/agent/src/ethernet_virtualization.rs:1363-1378 | With working operations an unforced write fails exactly on an oversized old or new file. |
| `ConfigFiles.RollbackIsExact` | crates/agent/src/ethernet_virtualization.rs:737-761 | A failed reload restores the file, absent included, exactly when it existed or no stale backup lay around, and then the next write retries. |
| `ConfigFiles.SuccessIsStable` | crates/agent/src/ethernet_virtualization.rs:1375-1383 | Without a failure the new contents stay, and writing them again changes nothing whatever the I/O does. |
| `ConfigFiles.PostsAreIndependent` | crates/agent/src/ethernet_virtualization.rs:724-763 | In a list of post actions on different files each file ends as if its action had run alone. |
| `ConfigFiles.FileSystem.Apply` | crates/agent/src/nvue.rs:805-848 | The disk after a configuration was applied, or was moved aside and rolled back, for every pattern of failing operations. |
| `DhcpFiles.UpdateDhcp` | crates/agent/src/ethernet_virtualization.rs:960-1003 | The new disk, result and command of one call, for every pattern of failing file operations. |
| `DhcpFiles.WriteServerFiles` | crates/agent/src/ethernet_virtualization.rs:1191-1346 | The new disk and whether a server file changed, with rendering and every file operation failing at any point. |
| `DhcpFiles.FaultyUpdateEffect` | crates/agent/src/ethernet_virtualization.rs:960-1003 | Whatever file operations fail: exactly when a command runs and which, the result, and where each of the five live files ends, from the disk before the call. |
| `DhcpFiles.FaultsNeverHideServerChanges` | crates/agent/src/ethernet_virtualization.rs:960-1003 | Whatever file operations fail, the two configuration files are as before or new, a call that reports no change left the three server files alone, and a complete call that changed one of them runs a command. |
| `DhcpFiles.RelayChangesSilentlyExactlyWhen` | crates/agent/src/ethernet_virtualization.rs:967-1003 | Whatever fails and however far rendering gets, exactly when a relay file changes without a command, and exactly when it does although no change is reported. |
| `DhcpFiles.SuccessUnderFaults` | crates/agent/src/ethernet_virtualization.rs:1198-1346 | Whatever fails, exactly which server files hold the new contents after a call that reports success. |
| `DhcpFiles.ServerIsWholeExactlyWhen` | crates/agent/src/ethernet_virtualization.rs:737-761 | Whatever file operations fail, the server file is as before or new, exactly unless a command fails and the roll back removes the file or installs a stale or half-written backup. |
| `DhcpFiles.TornBackupIsInstalled` | crates/agent/src/ethernet_virtualization.rs:751-761 | A family of calls in which the backup copy breaks off and the command fails: the half-written backup becomes the server file. |
| `DhcpFiles.UpdateEffect` | crates/agent/src/ethernet_virtualization.rs:967-1003 | With working file operations: a command runs exactly when a server file was out of date or a leftover was deleted; which command it is; where each of the five live files ends, also when the command fails. |
| `DhcpFiles.UpdateShedsLeftovers` | crates/agent/src/ethernet_virtualization.rs:967-971 | Leftovers never grow, each call that finds some deletes at least one, and one call leaves at most three, however far rendering gets. |
| `DhcpFiles.UpdateLeavesLeftover` | crates/agent/src/ethernet_virtualization.rs:967-971 | Exactly when a call leaves a leftover, from the disk before it, however far rendering gets and whatever the command does. |
| `DhcpFiles.RelayCleanedExactlyWhen` | crates/agent/src/ethernet_virtualization.rs:967-971 | Whatever fails, a relay leftover is deleted exactly if one of the six sidecars is there and may be deleted. |
| `DhcpFiles.NoTmpSurvives` | crates/agent/src/ethernet_virtualization.rs:1650-1654 | With working file operations no `.TMP` file of the five survives a call, whatever the rendering and the command do. |
| `DhcpRuns.UpdateConverges` | crates/agent/src/ethernet_virtualization.rs:960-1003 | From any disk and whatever earlier commands did, every call from the fifth on that follows one that did not fail runs no command and reports no change. |
| `DhcpRuns.QuietIsForever` | crates/agent/src/ethernet_virtualization.rs:989-998 | After one quiet call all later ones are quiet and leave the server files alone. |
| `DhcpRuns.FourNoisyCalls` | crates/agent/src/ethernet_virtualization.rs:1615-1620 | The bound of four noisy calls is reached. |
| `DhcpFiles.SuccessMeansCurrent` | crates/agent/src/ethernet_virtualization.rs:1294-1345 | After a successful call every server file holds the new contents, except that exactly those with an oversized old or new version are left as they were. |
| `DhcpRuns.FailedReloadLosesServerFile` | crates/agent/src/ethernet_virtualization.rs:1294-1306 | What a failed command leaves of the server file on any disk, exactly when that is the file of before, and exactly when the next call retries. |
| `DhcpRuns.NextCallRunsExactlyWhen` | crates/agent/src/ethernet_virtualization.rs:972-1003 | Whether a call runs a command can be read off the disk before the previous one and its command's outcome: a failure that left the server file outdated, or a leftover that stays. |
| `DhcpRuns.CommandsEndWithSuccess` | crates/agent/src/ethernet_virtualization.rs:960-1003 | From any disk and over any sequence of command outcomes, from the fifth call on a command runs exactly if the fourth call ran one, none has worked since, and the server file fits the size limit. |
| `DhcpRuns.CommandsRunUntilSuccess` | crates/agent/src/ethernet_virtualization.rs:960-1003 | Without leftovers and stale backup the same holds from the first call on, for any sequence of outcomes; while commands fail there is no server file, and after a success all files are current. |
| `DhcpFiles.CleanupRestartsStoppedServer` | crates/agent/src/ethernet_virtualization.rs:981-997 | Exactly when the restart command runs although the server must be stopped. |
| `DhcpRuns.RenderFailureLosesReload` | crates/agent/src/ethernet_virtualization.rs:1191-1346 | For rendering that fails at any of four points and any disk: no command runs, exactly when the next complete call makes up for it, and exactly when a command that was due is lost for good. |
| `DhcpRuns.RelayChangeIsLostExactlyWhen` | crates/agent/src/ethernet_virtualization.rs:967-998 | Exactly when a call changes a relay file and runs no command, and that then no later call runs one, whatever follows. |
| `DhcpRuns.RelaysGoUnannounced` | crates/agent/src/ethernet_virtualization.rs:989-998 | A family of disks on which both relay configurations go and no call ever reloads. |
| `DhcpCrashes.CleanupInterruptedEndsInCleanup` | crates/agent/src/ethernet_virtualization.rs:967-971 | The operations of the relay cleanup used for crashes, run to their end, are the cleanup. |
| `DhcpCrashes.CrashInCleanup` | crates/agent/src/ethernet_virtualization.rs:967-971 | For a crash after any number of the operations of the relay cleanup: exactly when the next call runs a command, from the disk before, and whether the NVUE relay file is gone. |
| `DhcpCrashes.InterruptedEndsInReplace` | crates/agent/src/ethernet_virtualization.rs:1350-1394 | The list of file operations used for crashes, run to its end, is the replacement of one file. |
| `DhcpCrashes.CrashLosesReload` | crates/agent/src/ethernet_virtualization.rs:972-1003 | For a crash after the relay cleanup and any number of the file operations from there to the command: exactly when the next call runs a command, in terms of the disk before and the crash point. |
| `DhcpCrashes.CrashedAfterCommandEndsInUpdate` | crates/agent/src/ethernet_virtualization.rs:737-771 | The operations after the command, run to their end, give the disk of the whole call. |
| `DhcpCrashes.CrashAfterCommand` | crates/agent/src/ethernet_virtualization.rs:737-771 | The same for a crash after the command, in the roll back or among the final drops. |
| `NvueFiles.UpdateNvue` | crates/agent/src/ethernet_virtualization.rs:523-549 | The disk, result and whether NVUE was asked to apply, for one tick and every pattern of failing operations, with the forced write of the admin network. |
| `NvueFiles.RejectedConfigIsRolledBack` | crates/agent/src/nvue.rs:805-848 | Exactly when a rejected configuration is rolled back to the file of before, absent included, whatever fails, and what the `.error` file then holds. |
| `NvueFiles.FaultsNeverTearConfig` | crates/agent/src/ethernet_virtualization.rs:523-549 | Whatever fails, an accepted configuration is on disk whole without a backup beside it, a tick that applies nothing leaves the file alone, and each result is as the outcome demands. |
| `NvueFiles.AppliesUntilSuccess` | crates/agent/src/nvue.rs:801-848 | Over any run of ticks and outcomes NVUE is asked up to and including its first success and never after; until then the file is the original. An oversized configuration on the admin network is applied for ever. |
| `Bridging.RunApply` | crates/agent/src/traffic_intercept_bridging.rs:108-139 | The disk and result for each way the script can end. |
| `Bridging.FaultsNeverTearScript` | crates/agent/src/ethernet_virtualization.rs:616-634 | Whatever operations fail, the script is replaced whole or not at all unless its run failed, and is run only if it changed. |
| `Bridging.FailedRunRestoresExactlyWhen` | crates/agent/src/traffic_intercept_bridging.rs:62-139 | Whatever operations fail, exactly when a failed run ends with the script of before, absent included. |
| `Bridging.UpdateBridging` | crates/agent/src/ethernet_virtualization.rs:616-634 | The disk, result and whether the script ran, for one tick and every pattern of failing operations. |
| `Bridging.FailedRunKeepsScript` | crates/agent/src/traffic_intercept_bridging.rs:68-103 | Exactly when a failed run leaves the new contents in place, and that an error exit counts as a change. |
| `Bridging.FailedRunIsRetried` | crates/agent/src/ethernet_virtualization.rs:616-634 | Exactly when the next tick runs the script again. |
| `Bridging.ScriptRunsUntilSuccess` | crates/agent/src/traffic_intercept_bridging.rs:62-139 | Over any run of ticks and any mix of failures a script that is due runs up to and including its first success and never again; one that is not, never. |
| `NetworkReset.Reset` | crates/agent/src/ethernet_virtualization.rs:1136-1179 | The disk, the reloads run and the errors collected, for every pattern of failing operations. |
| `NetworkReset.FaultsNeverTearReset` | crates/agent/src/ethernet_virtualization.rs:1136-1179 | Whatever fails, each DHCP file is as before or blank, nothing changes but these two, the NVUE startup file and their sidecars, and a startup file that stays or a reload that fails counts as an error. |
| `NetworkReset.ResetEffect` | crates/agent/src/ethernet_virtualization.rs:1136-1179 | What one reset leaves of every file, with the backups that nothing removes, and how many reloads it runs and errors it collects. |
| `NetworkReset.FailedResetIsNeverRetried` | crates/agent/src/ethernet_virtualization.rs:1168-1174 | Over any run of resets and outcomes only the first reloads anything. |
| `NetworkReset.NoisyAfterReset` | crates/agent/src/ethernet_virtualization.rs:1141-1158 | Exactly when the first `update_dhcp` call after a reset runs a command, from the disk before the reset. |
| `NetworkReset.ResetMakesNvueApply` | crates/agent/src/ethernet_virtualization.rs:1160-1166 | After a reset the next NVUE tick applies exactly what fits the size limit. |
| `InstanceAllocator.BuildInterfaces` | crates/admin-cli/src/rpc.rs:1272-1398 | The request is the specified layout or the specified error. |
| `InstanceAllocator.AddVirtualFunctions` | crates/admin-cli/src/rpc.rs:1338-1368 | One chunk yields the block of virtual functions of one physical function and advances the function number by its length. |
| `InstanceAllocator.AddPhysicalFunction` | crates/admin-cli/src/rpc.rs:1303-1368 | One round extends the layout by one physical function and its block and keeps the two chunk iterators in step. |
| `InstanceAllocator.BuildSucceedsExactlyWhen` | crates/admin-cli/src/rpc.rs:1284-1398 | The request is accepted exactly when there are enough interfaces and the virtual functions are fewer than the physical ones or divide evenly (and tenant and subnet demands hold). |
| `InstanceAllocator.PfOfRequest` | crates/admin-cli/src/rpc.rs:1303-1336 | Where physical function i of an accepted request stands, that it has the i-th prefix, address and IPv6 settings and the device of the i-th usable interface, and that the list has nothing else. |
| `InstanceAllocator.UsableExactlyWhen` | crates/admin-cli/src/rpc.rs:1293-1301 | The usable interfaces are exactly those whose vendor text names Mellanox, in any case. |
| `InstanceAllocator.ErrorExactlyWhen` | crates/admin-cli/src/rpc.rs:1272-1398 | Which error a request gets that is not accepted: exactly when each of the four applies. |
| `InstanceAllocator.VfOfRequest` | crates/admin-cli/src/rpc.rs:1338-1367 | Virtual function g has number g, the g-th prefixes, and sits under physical function g / k. |
| `InstanceAllocator.RequestNumbersDevices` | crates/admin-cli/src/rpc.rs:1309-1312 | In the list of an accepted request no two physical functions share device and instance, and the instances of a device have no gaps. |
| `InstanceAllocator.VfAddressesArePositionalExactlyWhen` | crates/admin-cli/src/rpc.rs:1350-1361 | Exactly when every virtual function gets the addresses, IPv4 and IPv6, at its own position. |
| `InstanceAllocator.VfsPerPf` | crates/admin-cli/src/rpc.rs:1284-1289 | The chunk size is never zero, so chunking never panics. |
| `TelemetryKeys.GenerateMetricKey` | bluefield/otel/telemetrystatsprocessor/telemetrystatsprocessor.go:764-792 | The loop prints the specified key. |
| `TelemetryKeys.ParseKey` | bluefield/otel/telemetrystatsprocessor/telemetrystatsprocessor.go:317-334 | The loop reads the specified labels. |
| `TelemetryKeys.KeyRoundTripExactlyWhen` | bluefield/otel/telemetrystatsprocessor/telemetrystatsprocessor.go:762-792 | Reading a generated key recovers grouping, name, type and labels if and only if nothing printed contains a separator and no label uses a reserved name. |
| `TelemetryKeys.KeysAreInjective` | bluefield/otel/telemetrystatsprocessor/telemetrystatsprocessor.go:764-792 | Different clean dimensions get different keys. |
| `TelemetryKeys.DimensionsAreThoseAskedFor` | bluefield/otel/telemetrystatsprocessor/telemetrystatsprocessor.go:747-792 | A datapoint's dimensions are the grouping, the metric name and printed type if asked for, and exactly the labels asked for that have a text at their most specific level. |
| `TelemetryKeys.HiddenAttributesKeepKeys` | bluefield/otel/telemetrystatsprocessor/telemetrystatsprocessor.go:643-654 | Attributes of a scope or resource never change a key where a more specific level has the same name. |
| `TelemetryKeys.ColonsMerge` | bluefield/otel/telemetrystatsprocessor/telemetrystatsprocessor.go:782-791 | A family of different dimensions, one with a colon in a value, that share a key. |
| `TelemetryCounts.MetricDatapointMatchesFilter` | bluefield/otel/telemetrystatsprocessor/telemetrystatsprocessor.go:666-732 | The loops with early returns decide the declared formula: type, and (types only, or name, or label). |
| `TelemetryCounts.CommentHoldsExactlyWhen` | bluefield/otel/telemetrystatsprocessor/telemetrystatsprocessor.go:656-685 | The filter agrees with the formula of its comment except exactly on datapoints of the right type under a filter that lists only types. |
| `TelemetryCounts.SingleDemands` | bluefield/otel/telemetrystatsprocessor/telemetrystatsprocessor.go:666-732 | What each single demand of a filter means, in terms of the datapoint's name, type and texts, and how two demands combine. |
| `TelemetryCounts.CaseDoesNotMatter` | bluefield/otel/telemetrystatsprocessor/telemetrystatsprocessor.go:671-685 | Type names are compared without regard to case. |
| `TelemetryCounts.GroupingsSelect` | bluefield/otel/telemetrystatsprocessor/telemetrystatsprocessor.go:734-745 | A grouping counts every datapoint that is foreign and supported, but for what it does not include or excludes. |
| `TelemetryCounts.MatchLabel` | bluefield/otel/telemetrystatsprocessor/telemetrystatsprocessor.go:704-728 | One label filter is decided as declared. |
| `TelemetryCounts.MetricCounter.ProcessMetrics` | bluefield/otel/telemetrystatsprocessor/telemetrystatsprocessor.go:162-175 | A batch adds exactly the keys of its counted pairs, whatever its nesting. |
| `TelemetryCounts.MetricCounter.ProcessMetric` | bluefield/otel/telemetrystatsprocessor/telemetrystatsprocessor.go:226-241 | A metric adds its pairs although the code takes them grouping by grouping; own metrics add nothing. |
| `TelemetryCounts.MetricCounter.ProcessMetricGrouping` | bluefield/otel/telemetrystatsprocessor/telemetrystatsprocessor.go:243-282 | One grouping adds one key per included datapoint, none for unsupported types. |
| `TelemetryCounts.MetricCounter.ProcessDatapoint` | bluefield/otel/telemetrystatsprocessor/telemetrystatsprocessor.go:284-294 | One pair adds its key exactly when included. |
| `TelemetryCounts.CountsAreExact` | bluefield/otel/telemetrystatsprocessor/telemetrystatsprocessor.go:226-294 | The count of a key is the cardinality of the set of (datapoint, grouping) positions that map to it. |
| `TelemetryCounts.ProcessBatches` | bluefield/otel/telemetrystatsprocessor/telemetrystatsprocessor.go:157-175 | After any sequence of batches every counter equals that cardinality over all of them, and no other counter exists. |
| `TelemetryCounts.BatchYieldsItsSize` | bluefield/otel/telemetrystatsprocessor/telemetrystatsprocessor.go:157-241 | A batch yields as many points as it has datapoints. |
| `TelemetryCounts.EveryDatapointIsAPoint` | bluefield/otel/telemetrystatsprocessor/telemetrystatsprocessor.go:157-282 | Every datapoint of a batch is counted from, under its own metric and with the attributes of its own resource, scope and datapoint. |
| `TelemetryCounts.GenerateLogKey` | bluefield/otel/telemetrystatsprocessor/telemetrystatsprocessor.go:796-811 | The loop prints the specified key. |
| `TelemetryCounts.LogKeyIsMetricKey` | bluefield/otel/telemetrystatsprocessor/telemetrystatsprocessor.go:796-811 | A log key is the key of a datapoint grouped by the same labels and nothing else. |
| `TelemetryCounts.HiddenAttributesKeepLogKeys` | bluefield/otel/telemetrystatsprocessor/telemetrystatsprocessor.go:643-654 | What a more specific level hides never changes a log key either. |
| `TelemetryCounts.LogKeysAreInjective` | bluefield/otel/telemetrystatsprocessor/telemetrystatsprocessor.go:796-811 | Records with the same clean key have the same grouping name and the same labels. |
| `TelemetryCounts.EveryRecordIsThere` | bluefield/otel/telemetrystatsprocessor/telemetrystatsprocessor.go:129-155 | Every record of a batch is counted from, with its own three levels of attributes. |
| `TelemetryCounts.LogBatchYieldsItsSize` | bluefield/otel/telemetrystatsprocessor/telemetrystatsprocessor.go:129-155 | A batch yields as many records as it has. |
| `TelemetryCounts.LogCounter.ProcessLogs` | bluefield/otel/telemetrystatsprocessor/telemetrystatsprocessor.go:129-155 | A batch adds one key per record and grouping, whatever its nesting. |
| `TelemetryCounts.LogCountsAreExact` | bluefield/otel/telemetrystatsprocessor/telemetrystatsprocessor.go:144-150 | The count of a log key is the cardinality of the set of (record, grouping) positions that map to it. |
| `TelemetryCounts.LogTotal` | bluefield/otel/telemetrystatsprocessor/telemetrystatsprocessor.go:129-155 | The keys of a list of records number records times groupings. |
| `TelemetryCounts.ProcessLogBatches` | bluefield/otel/telemetrystatsprocessor/telemetrystatsprocessor.go:129-155 | After any sequence of log batches every counter equals that cardinality, no other counter exists, and the counters add up to records times groupings. |
| `TelemetryCounts.LogCounter.TotalCounts` | bluefield/otel/telemetrystatsprocessor/telemetrystatsprocessor.go:821-827 | The counters add up to all keys ever counted. |
| `TelemetryPipeline.DrainIsOrderedAndMonotone` | bluefield/otel/telemetrystatsprocessor/telemetrystatsprocessor.go:296-369 | In every interleaving, per processor: drained is a prefix of sent, at most 128 datapoints are in between, and the values drained for one counter never decrease. |
| `TelemetryPipeline.SelfCountIsConserved` | bluefield/otel/telemetrystatsprocessor/telemetrystatsprocessor.go:392-434 | In every interleaving the datapoint total equals the counter datapoints that self-reporting processors announced plus all self-count datapoints in the channels' streams or served; reported totals never decrease. |
| `TelemetryPipeline.ReportIncludesItself` | bluefield/otel/telemetrystatsprocessor/telemetrystatsprocessor.go:402-415 | The total a report shows is the number of all datapoints published, those of that report included. |
| `TelemetryPipeline.StepKeepsInv` | bluefield/otel/telemetrystatsprocessor/telemetrystatsprocessor.go:312-369 | Every atomic step keeps the system invariant. |
| `TelemetryPipeline.OneReporterAtATime` | bluefield/otel/telemetrystatsprocessor/telemetrystatsprocessor.go:371-390 | In every interleaving at most one processor reports self-counts, and it is the elected one. |
| `TelemetryPipeline.ElectionExactlyWhen` | bluefield/otel/telemetrystatsprocessor/telemetrystatsprocessor.go:373-390 | Exactly when a processor turns to reporting, and exactly how the reporter changes: from none to one that asks, and back only by its own cleanup. |
| `TelemetryPipeline.OneReporterBetweenStops` | bluefield/otel/telemetrystatsprocessor/telemetrystatsprocessor.go:371-390 | While no processor is cleaned up, all self-counts sent come from one processor. |
| `TelemetryPipeline.OfficeIsLostExactlyWhen` | bluefield/otel/telemetrystatsprocessor/telemetrystatsprocessor.go:112-127 | In every interleaving the office of reporter is held by a stopped processor exactly when that one exports logs. |
| `TelemetryPipeline.LostOfficeIsForever` | bluefield/otel/telemetrystatsprocessor/telemetrystatsprocessor.go:112-127 | Once that is so, no processor sends self-counts again, whatever happens. |
| `TelemetryPipeline.StoppedIsSilent` | bluefield/otel/telemetrystatsprocessor/telemetrystatsprocessor.go:296-310 | After its cleanup a processor generates nothing more. |
| `TelemetryPipeline.CountersAreExact` | bluefield/otel/telemetrystatsprocessor/telemetrystatsprocessor.go:284-294 | In every interleaving a counter is the number of times its key was counted. |
| `TelemetryPipeline.LogTotalIsExact` | bluefield/otel/telemetrystatsprocessor/telemetrystatsprocessor.go:578-580 | In every interleaving the shared log total is the number of log datapoints scraped. |
| `TelemetryPipeline.DatapointsAreExact` | bluefield/otel/telemetrystatsprocessor/telemetrystatsprocessor.go:312-369 | In every interleaving each counter datapoint carries how often its key had been counted when some snapshot was taken, and each self-count datapoint the shared count right after some report. |
| `TelemetryPipeline.ScrapesAreComplete` | bluefield/otel/telemetrystatsprocessor/telemetrystatsprocessor.go:312-369 | A scrape takes up every key counted so far, once, and a report every self-count, once. |
| `TelemetryPipeline.TurnsDeliver` | bluefield/otel/telemetrystatsprocessor/telemetrystatsprocessor.go:355-368 | A channel drained in turn delivers the datapoints of a scrape in order. |
| `ShellQuoting.ShellEscape` | crates/agent/src/upgrade.rs:44-56 | The loop builds the specified escaped text. |
| `ShellQuoting.MakeUpgradeCmd` | crates/agent/src/upgrade.rs:31-42 | The command is the fixed text followed by the escaped version. |
| `ShellQuoting.EscapedReadsBack` | crates/agent/src/upgrade.rs:44-56 | From any unquoted point the shell reads the escaped text as exactly the original, fully quoted, in one word, and is unquoted again. |
| `ShellQuoting.VersionIsOneWord` | crates/agent/src/upgrade.rs:31-42 | For every version the command's tokens are the same up to the last, which is the single word `forge-dpu=` and the version, quoted. |
| `PuntStats.ParseLine` | bluefield/otel/puntstatsreceiver/puntstatsreceiver.go:185-244 | The parser with its reassigned variables computes the specified result on every line. |
| `PuntStats.ParseOfPrinted` | bluefield/otel/puntstatsreceiver/puntstatsreceiver.go:38-63 | The parser inverts both documented line formats for every label, drop flag and pair of 64-bit counters. |
| `PuntStats.ParsedIsDocumented` | bluefield/otel/puntstatsreceiver/puntstatsreceiver.go:198-220 | Whatever the line, the label is from a fixed finite set that determines the format. |
| `PuntStats.ReadableOfPrinted` | bluefield/otel/puntstatsreceiver/puntstatsreceiver.go:282-303 | Scraping a file of documented lines yields exactly its statistics, in order. |
| `PuntStats.Scrape` | bluefield/otel/puntstatsreceiver/puntstatsreceiver.go:282-322 | A scrape is forwarded exactly when no line overflows the scanner and its readable lines have one format, with one point pair per readable line in order. |
| `PuntStats.ForwardedExactlyWhen` | bluefield/otel/puntstatsreceiver/puntstatsreceiver.go:304-316 | The forwarded points carry the counters of their lines exactly when all readable counters are below 2^63, and otherwise one is negative. |
| `PuntStats.SumsAreMonotonicExactlyWhen` | bluefield/otel/puntstatsreceiver/puntstatsreceiver.go:254-270 | Between two scrapes in which no series of protocol and drop flag decreases, the forwarded series do not decrease exactly when no counter passes 2^63. |
| `NvueInput.BuildNetworkSecurityGroups` | crates/agent/src/ethernet_virtualization.rs:637-665 | Succeeds exactly when all rules convert; one group per named id, by its first definition; the stateful flag is the disjunction over all interfaces. |
| `NvueInput.ConvertedMeans` | crates/agent/src/ethernet_virtualization.rs:637-665 | Rules are converted one by one, in order, all of them or none. |
| `NvueInput.BuildInput` | crates/agent/src/ethernet_virtualization.rs:182-322 | Exactly when construction succeeds; tenancy is enabled exactly when there are ports; port i has the name, kind and security group of interface i. |
| `NvueInput.PortGroupsAreDefined` | crates/agent/src/ethernet_virtualization.rs:306-309 | Every port's security group exists and is the first definition. |
| `NvueInput.VirtNamesAreDistinct` | crates/agent/src/lib.rs:483-485 | Distinct virtual functions never share a port name, nor the physical one. |
| `InfinibandConfig.ExtractInstanceIbConfig` | crates/agent/src/periodic_config_fetcher.rs:320-366 | The devices are the stable partition of the entries by GUID; when it errs, and that too few statuses panic. |
| `InfinibandConfig.GuidsAreDistinct` | crates/agent/src/periodic_config_fetcher.rs:348-355 | The devices have distinct GUIDs, and exactly those with instances. |
| `InfinibandConfig.FirstSeenOrder` | crates/agent/src/periodic_config_fetcher.rs:348-355 | Of two entries that are each the first with their GUID, the earlier one's device stands earlier. |
| `InfinibandConfig.EntryIsPlaced` | crates/agent/src/periodic_config_fetcher.rs:339-359 | Every entry with a GUID is in that GUID's device, after exactly the earlier entries with the same GUID. |
| `InfinibandConfig.InterfaceIsPlaced` | crates/agent/src/periodic_config_fetcher.rs:320-359 | Interface i is listed under the device its status names, after exactly the earlier ones of that device, with its own partition, GUID and lid. |
| `InfinibandConfig.EveryEntryOnce` | crates/agent/src/periodic_config_fetcher.rs:339-359 | The devices hold as many instances as there are entries with a GUID, so nothing else is in them. |
| `InfinibandConfig.EmptyExactlyWithoutGuid` | crates/agent/src/periodic_config_fetcher.rs:361-363 | There are no devices exactly when no entry has a GUID. |

## Left out

- gRPC and HTTP transport, TLS, systemd, signals and process execution: each is a parameter that says how the call ended.
- NVUE template rendering, `nvue::build`, the `nv` commands, managed files and extension services: they appear only as rendered text or as an outcome.
- Reloading the extra ACL rules, whose failure is only logged: one more file with an easier protocol.
- The gRPC DHCP path and the NVUE REST push: thin calls to remote services. `AgentFiles` speaks of agents that use the file paths.
- Certificate renewal, inventory updates, upgrade checks and log bookkeeping of the main loop: only that they happen, or that the agent stops, is visible.
- The segment-name branch of `build_instance_request`: its counts depend on server lookups.
- Renaming of labels that collide with configured labels, and the HTTP exporter's text format: easy list edits.
- The container root directory that is prepended to most paths, and directories as such: paths are pairs of file and role, with their names in `ConfigFiles.LocationOf`.
- TelemetryPipeline.DrainIsOrderedAndMonotone: counters are unbounded where the code has 64-bit ones, and the datapoints' label maps are left to `TelemetryKeys`.
- InstanceAllocator.BuildInterfaces: function and instance numbers are unbounded where the code has 32-bit ones.
- Health.HealthCheck: does not model targets, messages and classifications of alerts.
- Health.HealthReport.CheckHbnServicesRunning: does not model which service a verdict names.
- Health.HealthReport.CheckBgpStats: starts from the decoded summary; reading it from JSON is a parameter that says whether it worked.
- AgentLoop.MainLoop.RunSingleIteration: does not model the upgrade check, the extension services' results and the interface list, only whether the latter could be had.
- DhcpCrashes.CrashLosesReload: a crash is between two file operations; what a half-written `.TMP` or backup holds does not change whether the next call runs a command.

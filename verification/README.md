# native-ops: verified models

native-ops converges one Incus host to a manifest, moves instances between hosts, and serialises the changes made to a
host. This project models its hard cores in Dafny and proves what they promise.

Each command of Incus (or call of a DNS provider, or save of a file) is a small step on explicit state that may fail
without effect; where a failure can leave something behind (a copy between remotes, a file that cannot be removed) the
model leaves anything. Reads can fail too. A crash of the operator's process is the same as every later command failing.
What was asked and what failed is recorded in ghost state, so that no outcome can blame a command that was not tried.
Methods follow the source's loops and branches and are proved against specification functions or outcome predicates;
the lemmas then speak about every input, every outcome or every run.

| file | what it models |
|---|---|
| `Text.dfy`, `Overlay.dfy` | trimming, cutting, splitting, sorting; laying declared pairs over live ones |
| `Env.dfy`, `EnvEdit.dfy` | environment files: parse, render, merge, edit in place |
| `ShellWords.dfy`, `ReadOnly.dfy` | quoting for a shell, splitting a command, and the gate of the read-only executor |
| `HostQueue.dfy`, `QueueProtocol.dfy`, `Launch.dfy` | the host queue, every interleaving of its locked sections, and jobs run through it |
| `Migration.dfy`, `Restore.dfy` | moving an instance between remotes; restoring a volume in place |
| `Host.dfy`, `Update.dfy` | one host as one service sees it; replacing an instance's image with rollback |
| `Volumes.dfy`, `Snapshots.dfy`, `Forwards.dfy`, `Deploy.dfy`, `DeployRun.dfy`, `PlanApply.dfy`, `DeployLaws.dfy` | plan and apply of a service, whether a plan can be applied, and what each kind of run leaves |
| `DnsSync.dfy`, `DnsZone.dfy`, `DnsMatch.dfy`, `DnsPlan.dfy`, `DnsConverge.dfy` | planning a zone, what the plan makes of it, and the plan after it |
| `DnsHosts.dfy`, `DnsWanted.dfy`, `DnsFleet.dfy`, `DnsClash.dfy`, `DnsSpellings.dfy` | which host writes which record, and daemons syncing one zone at once |
| `OAuth.dfy`, `OAuthRuns.dfy` | codes, grants and refresh rotation |
| `ServeFlags.dfy`, `ServeRuns.dfy` | staged daemon flags, and every run of daemons over them |
| `Mesh.dfy`, `Retention.dfy`, `Images.dfy` | mesh addresses, backup and image retention |

## What does not hold as promised

Where the code and its documentation differ the model follows the code. Each of these has a theorem that says when the
promise is kept, and a lemma at an input or a run at which it is not.

- Editing an environment file twice is not always the same as once: `SetKeysIdempotent` gives the exact condition,
  `RepeatedKeyAfterBlankLine` an input.
- A declared variable whose value is untrimmed, quoted or spread over lines never settles: every deploy rewrites the file
  and restarts the service (`WrittenFileMatches`, `OneRun`, `TwoRuns`; `QuotedNeverSettles` is a manifest with a quoted
  value).
- A plan that blocks nothing can still be one that no run can apply, although a manifest that apply would refuse is to be
  a blocker. `PlanApply.DeployableIff` has the exact condition for every host and manifest; the inputs are two forwards
  of one name on a new instance (`TwoForwardsOneName`), two volumes whose paths give one device, such as `/a/b` and
  `/a-b` (`TwoVolumesOneDevice`), and, when the image is replaced, a foreign Caddyfile (`ReplacedOnForeignEdge`) and a
  volume that is not there yet and has a snapshot policy (`ReplacedWithNewVolume`).
- A ticket abandoned while it waits is told nothing, so not every ticket gets a message (`Messages`;
  `AbandonedIsToldNothing` is a run). After close, the busy flag is cleared under a live holder (`BusyLagsAfterClose`);
  mutual exclusion holds all the same.
- The comment on `launch` (pkg/server/apply.go:218-221) says the host is released before the job is reported finished;
  the code records Finished first, so that no job starts before the last holder has finished. For the launches the
  repository makes this is so in every run (`StartsInTurn`): only apply has something to prepare, and it never waits in
  line. `launch` by itself would not keep the order for a job that has both (`TurnsKeptIff`; `LateHappens` is a run).
- A source listed as neither Running nor Stopped (a frozen one) is neither stopped nor verified before the target starts
  (`StoppedIfListed`, `FrozenMoves`). A stop that went through followed by a status check that did not leaves the source
  stopped, although the error says it was left as it was (`SourceRestored`, `LeftStopped`).
- Restoring a volume also starts instances that were stopped before it: `VolumeDependents` lists every instance that
  mounts the volume, not only running ones as its comment says (`RunningAsBefore`, `StoppedIsStarted`).
- A DNS plan need not converge in one application. It does for every zone exactly when desired records that repeat
  one of a single-valued type ask for the same TTL and priority (`ConvergesIff`); records that repeat one of another
  type always do. `SameRecordTwice` is a zone and a list for which the second plan is not empty.
- Daemons that sync one zone at once, each by the zone as it read it, need not leave each other's records alone. They
  do in every run exactly when whoever want one record ask the same of it, and whoever want single-valued records of
  one name want the same (`ConvergeIff`). Of accepted records that can fail only within a host: it may spell a zone in
  two ways, and each spelling is synced by itself (`FleetConvergesIff`; in `SpellingsFight` two values for one name
  overwrite each other again and again).
- A revocation whose save fails is undone by a restart (`RestartUndoesRevocation`; `ReplayComesBack` is such a run).
- The committed flag set can be one that never served: after a start that could not count its attempt
  (`UncountedIsCommitted`), after one that could not remove a given-up set (`GivenUpIsCommitted`), and when a set is
  staged while another waits to be committed (`StagedMeanwhileIsCommitted`). `CommitIsServedIff` says exactly which
  commits are of the set that served.

## Model

| member | source | states |
|---|---|---|
| Env.ParseEnv | pkg/incus/env.go:32-53 | The variables are those the file's lines declare, the later of two for one key counting; comments, blank lines, lines without `=` and without a key declare nothing. |
| Env.RenderEnv | pkg/incus/env.go:57-69 | The rendered file: a header and one line a key, keys in order, whatever order the map is read in. |
| Env.RenderThenParse | pkg/incus/env.go:32-69 | Parsing a rendered environment gives it back exactly when its keys are plain and its values trimmed, on one line and not wrapped in quotes. |
| Env.RenderThenRead | pkg/incus/env.go:32-69 | For values on one line, each comes back trimmed and with one pair of quotes stripped. |
| Env.LineForms | pkg/incus/env.go:32-53 | A key, an equals sign and a value, with white space around any of them, declare that key; the value as it is if plain, or what one pair of quotes holds. |
| Env.NoVariable | pkg/incus/env.go:36-44 | A blank line, a comment, a line without an equals sign and one with nothing before it declare nothing. |
| Env.LastLineCounts | pkg/incus/env.go:32-53 | Of the lines that declare a key the last counts. |
| Env.MergeEnv | pkg/incus/env.go:75-87 | Merged is the live variables with the declared laid over them; changed exactly when that differs from the live ones. |
| EnvEdit.SetEnvKeys | pkg/incus/env.go:92-126 | The edited file: each wanted key replaced at its first line, its other lines dropped, missing keys appended in order. |
| EnvEdit.SetThenParse | pkg/incus/env.go:89-126 | Parsing the edited file gives the file's variables overlaid by the set, exactly when the set is plain. |
| EnvEdit.OthersKept | pkg/incus/env.go:89-126 | The lines that set no wanted key are kept, in order. |
| EnvEdit.ReplacedInPlace | pkg/incus/env.go:102-114 | The first line for a wanted key is replaced where it stands. |
| EnvEdit.EditedLinesSettled | pkg/incus/env.go:92-126 | After an edit every wanted key has exactly one line, holding its value. |
| EnvEdit.SetKeysIdempotent | pkg/incus/env.go:89-126 | A second edit leaves the file byte for byte exactly when nothing is set or the edited file ends in a line that is not blank. |
| EnvEdit.RepeatedKeyAfterBlankLine | pkg/incus/env.go:92-126 | An input whose second edit differs from the first. |
| ShellWords.SplitWords | pkg/remote/readonly.go:119-155 | Accepts exactly the scanned subset and returns its words. |
| ShellWords.ScanShQuote | pkg/incus/state.go:16-18 | Quoting makes any string exactly one word, inside any command. |
| ShellWords.ShQuoteRoundTrip | pkg/incus/state.go:16-18 | Any list of strings, quoted and joined by spaces, splits into exactly that list. |
| ShellWords.CommandWords | pkg/remote/readonly.go:114-155 | Any command built of bare and quoted words splits into exactly those words. |
| ShellWords.AcceptedIsPosix | pkg/remote/readonly.go:114-118 | A command the splitter accepts splits into the same words under the token rules of sections 2.2.1, 2.2.2 and 2.3 of the POSIX.1-2017 Shell Command Language. |
| ReadOnly.GateIsExact | pkg/remote/readonly.go:50-91 | A command passes exactly when it is one of twelve read shapes, word for word, and a POSIX shell then runs those words. |
| ReadOnly.WriteRefused | pkg/remote/readonly.go:53-91 | A command beginning with the verbs of any of 25 writes is refused, whatever follows. |
| ReadOnly.UnquotedRefused | pkg/remote/readonly.go:114-155 | An operator, substitution, redirection, pattern or newline outside quotes refuses the command, wherever it stands and whatever quoted text comes before it. |
| ReadOnly.ReadingAccepted | pkg/remote/readonly.go:53-112 | Every reading command built for valid names passes. |
| HostQueue.HostQueue.TryTicket | pkg/server/queue.go:47-57 | The host is taken exactly when open, free and unawaited, and the ticket told so; otherwise nothing changes. |
| HostQueue.HostQueue.Enqueue | pkg/server/queue.go:61-78 | A free host is taken, else a place at the end, up to 20; refused exactly when closed or full, and then nothing changes. |
| HostQueue.HostQueue.Withdraw | pkg/server/queue.go:88-96 | Abandon's first lock: leaves the line exactly when it stands in it, everybody else in order. |
| HostQueue.HostQueue.Abandon | pkg/server/queue.go:88-99 | With nobody in between: the place is given up, else the host is released. |
| HostQueue.HostQueue.Release | pkg/server/queue.go:102-112 | The first in line leaves it and is told yes, nobody else is told anything; without one the host is free. |
| HostQueue.HostQueue.Close | pkg/server/queue.go:116-124 | Everybody in line is told no, once, and nobody is left in it. |
| HostQueue.HostQueue.Position | pkg/server/queue.go:127-136 | The first place of the ticket in line, or 0 exactly when it is not there. |
| QueueProtocol.InvStep | pkg/server/queue.go:47-124 | Every locked section keeps the protocol's invariant, whoever holds, waits, leaves or was turned away. |
| QueueProtocol.MutualExclusion | pkg/server/queue.go:47-124 | Over every interleaving at most one ticket has the host, although busy stops tracking it after close. |
| QueueProtocol.BusyBeforeClose | pkg/server/queue.go:32-37 | Before close, busy exactly when some ticket holds the host; a line implies a holder; at most 20 wait. |
| QueueProtocol.Messages | pkg/server/queue.go:39-45 | A ticket is told at most one thing, and nothing exactly while it waits or if it was abandoned waiting; so no send under the mutex blocks. |
| QueueProtocol.FirstComeFirstServed | pkg/server/queue.go:8-21 | The host is given in issue order to exactly the tickets told yes; any ticket passed over was abandoned in line. |
| QueueProtocol.AbandonedIsToldNothing | pkg/server/queue.go:88-96 | A run in which a ticket abandoned in line is told nothing. |
| QueueProtocol.BusyLagsAfterClose | pkg/server/queue.go:88-112 | A run in which busy is false while a ticket runs; later tickets are refused. |
| Launch.InvAfter | pkg/server/apply.go:222-311 | Every step of every launch keeps phase, ticket, record, times and order in step. |
| Launch.OneRunning | pkg/server/apply.go:246-283 | At most one job is recorded as running, and it has the host. |
| Launch.StartsAfterFinishes | pkg/server/apply.go:232-245 | Whatever the launches are: of two jobs that started, the one that came first had finished before the other started. |
| Launch.CleanedUpOnce | pkg/server/apply.go:222-311 | Cleanup never runs twice, and has run exactly once by the end of each launch that was entered; every record has ended by then. |
| Launch.StatusForward | pkg/server/jobs.go:199-258 | A record is never lost, its status only moves forward, and an ended one never changes. |
| Launch.StatusTells | pkg/server/apply.go:229-311 | What the record of a launch that is over says is what came of it: succeeded exactly when its work was done and went through, interrupted when the daemon stopped before it got the host, failed otherwise. |
| Launch.NoDeadlock | pkg/server/apply.go:266-311 | While a launch is not over some launch can take a step. |
| Launch.EveryLaunchEnds | pkg/server/apply.go:222-311 | Without new arrivals the launches take a bounded number of steps; when none can go on all are over, nobody waits and the host is free. |
| Launch.RestartEnds | pkg/server/jobs.go:76-117 | After a restart every record has ended, an ended one as it was, none later than the restart. |
| Launch.StartsInTurn | pkg/server/apply.go:232-245 | Over every run of the launches the repository makes, no job starts before each recorded job that had the host before it is recorded as finished, whether that one ran or not. |
| Launch.TurnsKeptIff | pkg/server/apply.go:254-264 | `launch` keeps that order over all runs exactly when nothing that may wait in line has something to prepare; apply, which alone prepares, never waits. |
| Launch.LateHappens | pkg/server/apply.go:254-264 | A run of launches that no caller makes, in which a job starts before one that had the host before it is finished. |
| Migration.MigrationManager.CopyVolume | pkg/incus/remote_ops.go:186-202 | A copy of a stopped source is exact; of a running one arbitrary; a failed one leaves anything on the target but overwrites nothing without refresh. |
| Migration.MigrationManager.CopyInstance | pkg/incus/remote_ops.go:211-227 | The copy is created stopped; likewise. |
| Migration.MigrationManager.Preflight | pkg/engine/migration.go:125-208 | Changes nothing; clears only an instance whose profiles the target has, with no host path, of which the target has nothing, or with resume a stopped copy. |
| Migration.MigrationManager.CopyAll | pkg/engine/migration.go:219-233 | Over a source that does not run, success is a full copy; nothing else on the target changes and nothing goes. |
| Migration.MigrationManager.Rollback | pkg/engine/migration.go:255-269 | The target is stopped if it was started and the source started if it ran, each tried once and recorded; the target ends stopped or that stop failed, the source runs again or its start failed; both keep their data. |
| Migration.MigrationManager.Migrate | pkg/engine/migration.go:125-302 | Every outcome: nothing is deleted; the target only ever starts from a full copy of a source that does not run; what each result says of source and target is so, and the commands tried and failed are the ones it names. |
| Migration.MigrationManager.Finalize | pkg/engine/migration.go:307-376 | The source is deleted only when stopped with the target running and holding every volume by name; volumes only when asked; nothing goes from the target; it fails only where that is so or a command failed. |
| Migration.BothRunOnlyIfTargetLeft | pkg/engine/migration.go:255-269 | Both copies run exactly when a rollback restarted the source and could not stop the target. |
| Migration.SourceRestored | pkg/engine/migration.go:240-269 | A failed migration of a running source leaves it running, except where its restart is reported failed or the stop went through and the check did not. |
| Migration.LeftStopped | pkg/engine/migration.go:240-249 | An outcome in which the stop went through, the check did not, and the source stays down. |
| Migration.StoppedIfListed | pkg/engine/migration.go:236-249 | A completed migration leaves the source stopped exactly when it was listed as running or stopped. |
| Migration.FrozenMoves | pkg/engine/migration.go:236-249 | A frozen source is moved and stays frozen. |
| Migration.NothingServedIsLost | pkg/engine/migration.go:107-124 | Over every sequence of migrations, rollbacks, finalizes, writes, starts and stops, the last-served copy is whole and has every write the last-served copy ever held before. |
| Migration.FinalizeSparesOwner | pkg/engine/migration.go:304-376 | A finalize given any source never touches the last-served copy. |
| Migration.RollbackTold | pkg/engine/migration.go:251-302 | After a rollback the command its stage names was tried and failed; an unhealthy target's stop and a running source's start were tried, and are reported as they went. |
| Migration.MovedExactly | pkg/engine/migration.go:125-302 | An instance is moved exactly when it is there, mounts no host path, the target has its profiles and nothing of it (with resume at most a stopped copy), and no command fails. |
| Migration.MovedTold | pkg/engine/migration.go:210-289 | What was moved was snapshotted unless that is skipped, stopped and listed again if it ran, copied after that with every volume, started on the target and last of all found well if that is asked for. |
| Migration.OnlyUnwell | pkg/engine/migration.go:251-285 | If nothing fails but the health check, the target is stopped and the source runs if it ran. |
| Migration.OneFailureServes | pkg/engine/migration.go:125-302 | Whatever single command fails, exactly one copy serves afterwards if the source did before, except when it is the check that the source has stopped. |
| Migration.FinalizedExactly | pkg/engine/migration.go:307-376 | A finalize goes through exactly when the target runs, a source still there is stopped, mounts no host path and has each volume on the target, and no command fails; with a health check nothing is deleted before it passed. |
| Restore.Manager.Swap | pkg/backup/manager.go:349-361 | The volume is deleted only after a full copy of it exists. |
| Restore.Manager.Restore | pkg/backup/manager.go:284-363 | Every outcome: other volumes untouched; it ends early only at a command that failed or with the volume missing or the recovery volume there; an instance that ran and does not is one whose start was tried and failed. |
| Restore.NothingLost | pkg/backup/manager.go:349-363 | However a restore ends, the data the volume held is in the volume or in the recovery volume. |
| Restore.RestoredIff | pkg/backup/manager.go:326-363 | A restore goes through exactly when there is a volume, nothing has the recovery volume's name, nothing mounts it or force is given, and no command fails; then it holds the artifact and every instance that mounts it runs. |
| Restore.RunningAsBefore | pkg/backup/manager.go:326-347 | A completed restore leaves the same instances running exactly when every instance that mounts the volume ran. |
| Restore.StoppedIsStarted | pkg/backup/manager.go:326-347 | A stopped instance that mounts the volume runs after the restore. |
| Update.RepointRoute | pkg/caddy/edge.go:379-415 | Success leaves the site at an address of the instance, kept if it was one; only the upstream changes. |
| Update.ReplaceSite | pkg/caddy/edge.go:356-370 | Success publishes the site; failure leaves the old or the new one and touches nothing else. |
| Update.Replace | pkg/engine/instance.go:362-402 | Success is a container with the captured configuration, every device and the environment file, on the image asked for. |
| Update.Rollback | pkg/engine/instance.go:419-446 | Relaunches an image the instance ran or came from, with everything as captured, or says it is down. |
| Update.Update | pkg/engine/instance.go:295-447 | Every outcome: a failure before the replacement changes nothing; no outcome touches a volume; each result describes the instance and the route; it is down only after two failures or with no image to go back to; every data volume was snapshotted before a replacement, and what is updated was found healthy where that is asked for. |
| Update.ConfigCarried | pkg/engine/instance.go:282-294 | Updated or rolled back, the instance has its config, labels, devices and volumes; only the recorded reference differs, and the default profile comes first if it was not listed. |
| Update.SkippedIff | pkg/engine/instance.go:306-331 | Nothing is replaced exactly when the image asked for runs and force is not given; a fingerprint is compared with the image the instance was made from, any other reference with the one recorded. |
| Update.RouteFollows | pkg/engine/instance.go:404-446 | After a nil answer, or a rollback that could, the published site points at an address the instance has: the one it pointed at if still among them, else the first; nothing else of the edge differs. |
| Update.NilIsCurrent | pkg/engine/instance.go:291-294 | A nil answer leaves the instance on the image asked for, so the same update again replaces nothing. |
| Update.UpdatedEnv | pkg/engine/instance.go:355-361 | The file is the old one overlaid by SetEnv exactly when SetEnv is plain; an instance that runs the image already keeps its file. |
| Update.RollbackRestores | pkg/engine/instance.go:419-446 | The environment file comes back byte for byte, the recorded reference stays, and a known image is the one that ran. |
| Volumes.VolumeAttachment | pkg/incus/client.go:372-399 | Attached, clashing or free, each exactly when some device carries the volume, is in its way or has its name. |
| Volumes.EnsureVolume | pkg/incus/client.go:304-322 | An existing volume is left as it is; a write exactly when it did not exist. |
| Volumes.EnsureVolumeAttached | pkg/incus/client.go:354-370 | A write exactly when it was not attached; a clash fails. |
| Volumes.EnsureAttached | pkg/engine/deployer.go:753-765 | All declared volumes exist and are attached; it writes exactly when something was missing. |
| Volumes.AttachAllAttaches | pkg/incus/client.go:354-370 | Attaching adds devices and changes none; afterwards each declared volume is attached. |
| Volumes.DeviceNameIs | pkg/incus/client.go:324-331 | A volume's device is named by its path without the first slash, each other one a dash; data-vol when nothing is left. |
| Snapshots.EnsureSnapshotPolicy | pkg/engine/snapshots.go:87-112 | Sets exactly the keys that differ; changed exactly when one did. |
| Snapshots.EnsureVolumeSnapshots | pkg/engine/snapshots.go:73-84 | Every volume with a policy carries it, or the run fails. |
| Snapshots.ScheduledAgrees | pkg/engine/snapshots.go:22-34 | Afterwards no volume drifts, if no two declarations name one volume. |
| Snapshots.SetKeysUnset | pkg/engine/snapshots.go:87-112 | A key the policy does not give is unset, not left empty. |
| Forwards.ForwardsDrift | pkg/engine/forwards.go:32-74 | Fails exactly on an unusable or doubly named forward; otherwise the devices to publish and remove and the record to write. |
| Forwards.UsableIff | pkg/engine/forwards.go:32-45 | The forwards are accepted exactly when each is usable and no two share a name. |
| Forwards.EnsureForwards | pkg/engine/forwards.go:83-115 | Applies the drift; changed, and a write, exactly when the instance was out of step. |
| Forwards.DeclaredAt | pkg/engine/forwards.go:22-31 | A declared port has a matching device afterwards, untouched if it matched. |
| Forwards.OthersAt | pkg/engine/forwards.go:22-31 | A recorded port no longer declared is gone; every other device is as it was. |
| Forwards.RecordNames | pkg/engine/forwards.go:62-74 | The record reads back as exactly the declared names. |
| Forwards.RunSettles | pkg/engine/forwards.go:22-31 | After a run there is no drift and no record to write. |
| Forwards.ManyRuns | pkg/engine/forwards.go:76-115 | Over any sequence of manifests the managed ports are exactly the last one's, and a device never declared nor recorded is unchanged. |
| Deploy.WrittenFileMatches | pkg/engine/deployer.go:361-376 | A written environment file matches the declared variables exactly when they are plain. |
| Deploy.OneRun | pkg/engine/deployer.go:681-816 | Where the image stays, one run leaves nothing to do exactly when no forward takes the name of the only device carrying a declared volume and the environment can hold. |
| Deploy.TwoRuns | pkg/engine/deployer.go:448-816 | From any host, fresh, replaced or in place, two successful runs leave nothing to do exactly when the environment can hold: nothing is declared, it goes to environment.*, the file the first run finds has it already, or it is plain. |
| Deploy.MatchingIsLeftAlone | pkg/engine/deployer.go:448-462 | A run on a host that matches changes nothing. |
| Deploy.ReplaceLeavesLimits | pkg/engine/deployer.go:706-740 | A run that replaces the image leaves drifted limits and missing volumes to the next. |
| Deploy.OneRunApart | pkg/engine/deployer.go:681-816 | Where no forward takes the name of another kind of device or of a declared volume's, one run leaves nothing to do exactly when the environment can hold. |
| Deploy.BlockedFails | pkg/engine/plan.go:92-97 | A plan that is blocked is never applied with success, whether the instance is there or not. |
| PlanApply.DeployableIff | pkg/engine/plan.go:92-97 | For every host and manifest, some run can succeed exactly when the plan blocks nothing and what it does not look at fits: forwards of one name, volumes that take one device, and of a replaced image the volumes with a policy, the route and the address. |
| PlanApply.AttachAllIff | pkg/incus/client.go:354-399 | Volumes that no live device is in the way of can all be attached exactly when no two still to be attached take one device. |
| PlanApply.TwoForwardsOneName | pkg/engine/plan.go:234-241 | A manifest for an instance that is not there, not blocked, that no run can apply. |
| PlanApply.TwoVolumesOneDevice | pkg/engine/plan.go:299-317 | Another, whether the instance is there or not. |
| PlanApply.ReplacedOnForeignEdge | pkg/engine/plan.go:397-400 | Another, when the image is replaced: the route is not looked at. |
| PlanApply.ReplacedWithNewVolume | pkg/engine/plan.go:290-322 | Another, when the image is replaced: a missing volume is not looked at, and its policy cannot be set. |
| PlanApply.QuotedNeverSettles | pkg/engine/deployer.go:361-376 | A manifest with a quoted value, and two successful runs after which the host still drifts. |
| Deploy.AnyRunPublishes | pkg/engine/deployer.go:486-816 | After any successful run the ports are in step and the image is not to be replaced. |
| DeployRun.LabelsDrift | pkg/engine/labels.go:53-70 | Empty exactly when no labels are declared or the live ones are exactly those. |
| DeployRun.ReconcileLabels | pkg/engine/labels.go:32-49 | The instance carries exactly the wanted labels; a write exactly when it did not. |
| DeployRun.FindLimitsDrift | pkg/engine/deployer.go:671-679 | The declared limits whose live value differs. |
| DeployRun.ResizeLimits | pkg/incus/client.go:583-598 | The limits are overlaid on the live configuration. |
| DeployRun.EnsureEnv | pkg/engine/deployer.go:361-376 | Written exactly when the file is missing or a declared key differs; undeclared keys are kept. |
| DeployRun.EnsureOCIEnv | pkg/engine/deployer.go:339-354 | environment.* overlaid by the declared keys; changed exactly when one differed. |
| DeployRun.ApplyEnv | pkg/engine/deployer.go:301-335 | A write exactly when the environment drifts, where the instance's kind was looked at. |
| DeployRun.PublishRoute | pkg/caddy/edge.go:295-324 | The site at an address of the instance, the published one if it still is one; a write exactly when it was not so. |
| DeployRun.PlanRoute | pkg/engine/plan.go:376-416 | Blocks exactly on a missing edge, a foreign Caddyfile or a bad route; lists a change exactly when the route drifts. |
| DeployRun.PlanVolumes | pkg/engine/plan.go:299-317 | Blocks exactly on a clash; lists a change exactly when a volume is missing or unattached. |
| DeployRun.PlanConverge | pkg/engine/plan.go:251-365 | Lists exactly the changes due on the instance as it is and exactly what stands in the way. |
| DeployRun.PlanService | pkg/engine/plan.go:92-119 | Each change listed is one due, and each due is listed; likewise what stands in the way. It writes nothing. |
| DeployRun.PlanFresh | pkg/engine/plan.go:192-249 | Lists exactly the changes due on a service that is not there and exactly what stands in the way. |
| DeployRun.ReplaceImage | pkg/engine/deployer.go:706-740 | A successful replacement, and at least one write. |
| DeployRun.DeployFresh | pkg/engine/deployer.go:486-592 | A successful launch with volumes, ports, environment and route, found well where that is asked for; what it is launched with is `LaunchedIs`. |
| DeployRun.ConvergeInPlace | pkg/engine/deployer.go:681-816 | Success writes exactly when the host drifted. |
| DeployRun.DeployService | pkg/engine/deployer.go:448-477 | On an existing instance a successful run writes exactly when the plan lists a change, and leaves a matching host as it is. If no command fails (and an image launched has an address) it succeeds exactly when the plan is not blocked and the manifest fits; a health check asked for has passed; no volume is ever gone. |
| DeployRun.TwoRunsPlanNothing | pkg/engine/plan.go:92-119 | After two successful runs the plan finds nothing to do and nothing in the way, for plain variables or an OCI image. |
| DeployLaws.CorrectedIs | pkg/engine/deployer.go:681-816 | What a run in place leaves, field by field: image reference, labels, limits, variables, devices, ports, volumes with their policies, and the site. |
| DeployLaws.LaunchedIs | pkg/engine/deployer.go:486-592 | What a run leaves of a service that was not there, field by field: the image current, the default profile first unless listed, the declared labels and limits and nothing else, the variables where it reads them, volumes, ports and the site. |
| DeployLaws.ReplacedIs | pkg/engine/deployer.go:706-740 | What a run that replaces the image leaves, field by field; no volume is created and none goes. |
| DeployLaws.OneFreshRun | pkg/engine/deployer.go:486-592 | One run on a service that was not there leaves nothing to do exactly when no forward takes the name of the only device carrying a declared volume and every variable is where the instance turns out to read it. |
| DeployLaws.NothingToDoIff | pkg/engine/plan.go:92-119 | There is nothing to do exactly when image, labels, limits, variables, volumes with policies, ports, their record and the site are each as declared. |
| DeployLaws.BlockedIff | pkg/engine/plan.go:92-119 | A plan is blocked exactly by a missing secret, an unusable or doubly named port, a volume that cannot be mounted, a missing address, or a route without an edge, not valid or under a foreign Caddyfile. |
| DeployLaws.ReplacedIff | pkg/engine/deployer.go:648-669 | The image is replaced exactly when the one that runs, or the reference recorded, is known and another. |
| DeployLaws.UsesOCIIs | pkg/engine/deployer.go:271-295 | The variables go to environment.* exactly for an image whose reference is a registry's or an instance that is or was one. |
| DnsSync.PlanDNSSync | pkg/provider/dnssync.go:41-95 | The greedy plan, group by group, whatever order the maps are read in. For a zone of one record and one desired: nothing when they say the same (addresses and texts exactly, other values but for case and a last dot) with the TTL and priority asked for; a change of it when only those differ or the type is single-valued; else a new record. |
| DnsMatch.MatchAllIs | pkg/provider/dnssync.go:59-79 | The records used, missing and updated: of each type, name and value the j-th there is paired with the j-th desired, whatever stands between them. |
| DnsMatch.NothingPlannedIff | pkg/provider/dnssync.go:38-41 | A plan is empty exactly when each desired record's pair is there with the fields it asks for. |
| DnsConverge.ConvergesIff | pkg/provider/dnssync.go:33-41 | Applying the plan and planning again gives no change, for every zone and whatever the provider calls and gives new records, exactly when desired records that repeat one of a single-valued type ask for the same TTL and priority. |
| DnsConverge.OthersUntouched | pkg/provider/dnssync.go:33-36 | No record is removed, and those of a type and name not desired are as they were, in order. |
| DnsConverge.SameRecordTwice | pkg/provider/dnssync.go:40-41 | Desired records that differ only in TTL: the plan after the plan is not empty. |
| DnsHosts.DNSRecordsByHost | pkg/config/dns.go:49-171 | Answers exactly when every record can be placed and no two are at odds; each declared record is its service's host's, or the default one's, and an address record points there; after them exactly one record for each routed service off the default host. |
| DnsHosts.PlacedIff | pkg/config/dns.go:49-140 | Every record can be placed exactly when each entry's zone, service and host address are there and each route off the default host has a name of its own and an address. |
| DnsHosts.PlacedAre | pkg/config/dns.go:49-140 | Where each record goes: zone, host and value of each declared one, in order, then the routes' by service name. |
| DnsHosts.AgreementIff | pkg/config/dns.go:142-171 | The records agree exactly when no two for different hosts have one name in one zone, case aside, unless they are of different types and neither is a CNAME. |
| DnsHosts.ReservedKept | pkg/config/dns.go:142-171 | The apex and the wildcard of the domain stay with the default host. |
| DnsFleet.ReadKeeps | pkg/engine/network.go:289-330 | Reading the zone keeps all pending changes sound, whatever other daemons still have to do: none is aimed at a record another wish relies on, and no two updates of one record are for different wishes. |
| DnsFleet.CallKeeps | pkg/engine/network.go:289-330 | Any pending change, made at any time on whatever the zone is by then, keeps them sound. |
| DnsFleet.CallDoes | pkg/engine/network.go:289-330 | A call undoes no record that is there as wanted, and does what it was planned for, though the reading it was planned on is old. |
| DnsFleet.EveryHostConverges | pkg/config/dns.go:10-22 | Over every interleaving of reads and single calls by daemons whose wants agree, a daemon's finished sync leaves its plan empty for good. |
| DnsClash.ConvergeIff | pkg/engine/network.go:289-330 | Of daemons that want no record twice: every finished sync in every run leaves its plan empty for good exactly when whoever wants the same record asks the same of it, and whoever want single-valued records of one name want the same ones. |
| DnsSpellings.FleetConvergesIff | pkg/engine/network.go:212-215 | For a fleet whose records are accepted and of which no host repeats one: that holds of the syncs of every zone exactly when a host's records of one type and name in two spellings of a zone ask the same of one value, and if single-valued have the same values in both. |
| DnsSpellings.CnameStandsAlone | pkg/config/dns.go:158-168 | No host wants a CNAME of a name another host has a record of (section 3.6.2 of RFC 1034). |
| DnsSpellings.SpellingsFight | pkg/engine/network.go:212-215 | An accepted fleet whose two syncs of one zone undo each other again and again. |
| OAuth.OAuthStore.NewCode | pkg/server/oauth.go:230-246 | Expired codes go, the new one lives a minute. |
| OAuth.OAuthStore.ExchangeCode | pkg/server/oauth.go:272-304 | The code is used up whatever the outcome; it is answered, but for a save that fails, exactly when it was held, in time, of that client and redirect, of a registered client, and the verifier's challenge is its own. |
| OAuth.OAuthStore.Refresh | pkg/server/oauth.go:322-358 | A current token of that client, in time, rotates when the save goes through; the one before it removes the grant; every other is refused and changes nothing. |
| OAuth.OAuthStore.Revoke | pkg/server/oauth.go:413-423 | The grant is removed. |
| OAuth.OAuthStore.RevokeRefresh | pkg/server/oauth.go:426-437 | The token's grant is removed. |
| OAuthRuns.SpentOnce | pkg/server/oauth.go:271-358 | Over every run each code is answered at most once and each refresh token refreshes at most once (sections 4.1.2 and 6 of RFC 6749). |
| OAuthRuns.GrantsComeFromConsents | pkg/server/oauth.go:230-358 | Over every run each grant held or saved comes from a consent whose code was exchanged within a minute for its client, redirect and challenge; its current token was drawn for that client 30 days before it expires. |
| OAuthRuns.RefreshIsOfItsClient | pkg/server/oauth.go:306-358 | A refresh that is answered presents a token that an earlier step drew for its client, at most 30 days ago, and that no refresh has used since. |
| OAuthRuns.ReplayRevokes | pkg/server/oauth.go:320-336 | The previous token, presented by anybody, takes the grant away; it stays on disk exactly when the save failed. |
| OAuthRuns.RestartUndoesRevocation | pkg/server/oauth.go:320-336 | A restart brings the grant back exactly when the save failed and it had been saved. |
| OAuthRuns.ReplayComesBack | pkg/server/oauth.go:320-336 | A run in which it comes back. |
| OAuthRuns.GoneThroughout | pkg/server/oauth.go:374-401 | A grant neither held nor saved is never accepted, answered or brought back. |
| OAuthRuns.GoneTokensUnknown | pkg/server/oauth.go:322-358 | None of a removed grant's refresh tokens does anything. |
| ServeFlags.StateDir.Load | pkg/serveflags/serveflags.go:51-94 | Which set a start takes, what it counts and what it may fail to remove; it fails only where a file operation does. |
| ServeFlags.StateDir.Stage | pkg/serveflags/serveflags.go:97-104 | The set is pending, or nothing but the count of attempts changes, and that only where a file operation failed. |
| ServeFlags.StateDir.Commit | pkg/serveflags/serveflags.go:108-131 | Whatever is pending becomes the committed set; going back to the unit's flags takes two removals, and either may fail; without a fault nothing is pending and no attempt counted. |
| ServeRuns.StartsAreBounded | pkg/serveflags/serveflags.go:11-15 | In any sequence of starts, failed and uncounted ones among them, a pending set is taken at most three times before it is given up; the start after that runs the committed set. |
| ServeRuns.CommitIsServedIff | pkg/serveflags/serveflags.go:106-131 | Over every run of starts, stagings, commits and crashes: a commit changes the committed set to the one this start serves exactly when the start took and counted the pending set and nothing was staged since, or what is pending is what it serves all the same. |
| ServeRuns.OnlyServedIsCommitted | pkg/serveflags/serveflags.go:11-15 | In every run in which each commit is by such a start, the committed set only ever becomes one that served for as long as a commit asks. |
| ServeRuns.UncountedIsCommitted | pkg/serveflags/serveflags.go:69-71 | A run in which a start that cannot count its attempt commits a set that never served. |
| ServeRuns.GivenUpIsCommitted | pkg/serveflags/serveflags.go:61-68 | A run in which a start that cannot remove a given-up set commits it. |
| ServeRuns.StagedMeanwhileIsCommitted | pkg/serveflags/serveflags.go:108-131 | A run in which a set staged while another waits is committed in its place. |
| ServeFlags.Value | pkg/serveflags/serveflags.go:135-150 | The last value the arguments give the flag. |
| ServeFlags.EndsWith | pkg/serveflags/serveflags.go:135-150 | One more argument at the end is the value of a flag that waits for one; or gives its own value, as `-name=v` with one dash or more; or changes nothing. |
| ServeFlags.Merge | pkg/serveflags/serveflags.go:156-168 | The merged line, whose flags the next four rows read. |
| ServeFlags.StateDirKept | pkg/serveflags/serveflags.go:152-168 | In the merged command line the state directory is the unit's always when the unit names its host, else exactly when the set does not end in a bare `--state-dir`. |
| ServeFlags.HostNameKept | pkg/serveflags/serveflags.go:152-168 | The host's name is the unit's exactly when the set does not end in a bare `--host-name`, which the check before staging refuses. |
| ServeFlags.ListenKept | pkg/serveflags/serveflags.go:152-168 | The daemon listens where the set says if it gives an address, else where the unit does, unless the set ends in a bare `--addr`. |
| ServeFlags.OtherFlagsAreTheSets | pkg/serveflags/serveflags.go:152-168 | Every other flag is the set's, unless the set ends in it without a value. |
| Mesh.LastAddr | pkg/config/mesh.go:199-205 | Every bit after the prefix is set, byte by byte. |
| Mesh.LastAddrNumber | pkg/config/mesh.go:199-205 | That is the base plus 2^(32 - bits) - 1, the greatest address of the block. |
| Mesh.OverlapIsShared | pkg/config/network.go:94-132 | Blocks overlap exactly when some address lies in both. |
| Mesh.ValidateHostNetworks | pkg/config/network.go:98-132 | Accepts exactly when every override's bridge name and CIDR are usable and no two hosts' subnets overlap. |
| Mesh.TunnelAddress | pkg/config/mesh.go:144-156 | The declared address, else the subnet's (i+1)th, if there are as many; none for one that cannot be read. |
| Mesh.MeshPeers | pkg/config/mesh.go:109-173 | Accepts exactly a fleet with a host, each of the right form, with a usable address of its own and a bridge outside the mesh's subnet; each host is a peer in its place. |
| Mesh.FleetFitsIff | pkg/config/mesh.go:109-173 | In numbers: each host's address, declared or counted, lies strictly between the subnet's first and last, none is taken twice, and no address of a bridge lies in the subnet. |
| Mesh.OnePeerPerAddress | pkg/config/mesh.go:102-173 | When both checks accept, every address is in at most one peer's AllowedIPs. |
| Retention.SelectPrune | pkg/backup/manager.go:523-573 | Deletes exactly what is not the newest, not recent, not among the newest daily ones and not the newest of one of the newest months that have a backup. |
| Retention.PrunedOnce | pkg/backup/manager.go:401-408 | What survives a pruning survives another at the same time. |
| Images.ImagesToPrune | pkg/engine/imageprune.go:55-101 | The orphans, then each app's old tags. For distinct creation times: a tagged image goes exactly when nothing runs it, all its aliases are tags of one app (the given one), none is a latest and keepTags newer such images are there; one without a tag exactly when nothing runs it, it is no cached copy, and it was displaced or is old enough in a run for every app. |
| Images.OnlyOwnGo | pkg/engine/imageprune.go:15-28 | Nothing in use, carrying :latest or with an alias of somebody else's goes; without an alias, nothing cached. |
| Images.GoneExactly | pkg/engine/imageprune.go:55-101 | The same of the list itself: exactly those images go. |
| Images.PrunedOnce | pkg/engine/imageprune.go:55-101 | Pruning what is left deletes nothing more. |

## Left out

- DnsConverge.ConvergesIff: what a provider gives a new record where nothing is asked is any TTL and priority, as a plugin may (DigitalOcean gives a TTL of 1800); an update sets the value and what is asked for, as DigitalOcean does.
- DnsClash.ConvergeIff: asks that no daemon wants a record twice, TTL and priority aside, which the code does not check; `ConvergesIff` says of one daemon what happens otherwise.
- DnsSpellings.FleetConvergesIff: asks likewise that no host declares a record twice in one spelling of a zone.
- DnsHosts.DNSRecordsByHost: services of one name count as one, the last of them; the source then writes the route's record once for each of them.
- Deploy.TwoRuns: asks that no two declared volumes are one volume, which the code does not check, and that a usable forward's name has no comma or white space, which its own check ensures.
- Deploy.OneRun: a device is replaced when it is set. The source adds it, or overrides the keys of one that is there; the two differ only where a forward takes the name of another kind of device, which `OneRunApart` leaves out.
- PlanApply.DeployableIff: a run that can succeed is an outcome the commands allow; that they go through, and that every device has a type, is up to Incus.
- Retention.SelectPrune: asks for distinct keys and times; the order of equal times is the sort's.
- Migration.NothingServedIsLost: asks that each migration starts from the last-served copy and that an operator starts no other; writes a target made before it was rolled back are not counted as served.
- Launch.StartsAfterFinishes: times are ticks of one clock, one a step; wall-clock resolution is not modelled.
- ServeRuns.CommitIsServedIff: whether a commit waits is decided when the daemon starts; the source looks for the pending file when it begins to commit, a moment later.
- ServeFlags.StateDirKept: speaks of `Value`, the repository's own reader; the flag package, which checks a set before it is staged and parses the command line afterwards, is not part of this model.
- Hooks, image recipes, health checks and mount owners: only their success or failure; of the hooks, only the one before the start.
- The service that is the edge itself, the stock Caddyfile, and sites with cache or rate limits.
- Incus beyond the commands used; a profile never provides a device.
- Unicode case mapping in DNS names and types: ASCII only.
- Text of plans, errors and logs; plan hashes and approvals; the audit log.
- Jobs' pruning to 200 records and the job log's truncation.
- The daemon's own wrapper of a migration (the migrated mark, adoption, its route): only the migration itself.
- OAuth client registration and its eviction; signatures of access tokens (one is genuine or not).
- `SyncCaddyfile` and `lineDiff`; suspension of sites.
- Parsing of YAML, JSON, addresses and times; SSH, HTTP, S3 and compression.

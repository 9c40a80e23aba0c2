# A model of harbor-workload-identity-bridge

Harbor workload identity bridge hands pods short-lived robot credentials for a Harbor registry.
Its control plane keeps one Harbor robot and one Secret per HarborAccess object, its data plane
answers kubelet's credential plugin, and an installer wires that plugin into kubelet on every node.
This project models the four parts of it whose correctness is not visible from any single function,
and proves what they are for.

**The kubelet environment file** (`Text`, `EnvFile`, `EnvLines`, `EnvValues`, `Flags`, `ExtraArgs`,
`MergeArgs`, `Glob`). `EnvFile` holds the ten-state reader that systemd uses, as a function on texts,
and the installer's byte loop proved equal to it. `MergeArgs` is the installer's line-by-line edit of
such a file. Its main theorem is about what the reader reads before and after, for every file the
installer accepts. `Glob` is the wildcard matcher, proved against a recursive definition although it
only ever goes back to the last star.

**The node that several installs share** (`ProviderConfig`, `NodeFiles`, `SharedNode`, `StagedMove`,
`Restarts`, `Locks`). A pass is a list of writes that may end after any of them, or be rolled back.
`SharedNode` proves, over runs of any number of installs, that every entry in the shared config is
vouched for and that no pass takes away another install's entry. `StagedMove` proves when kubelet
moves to new directories and with whom. `Restarts` counts kubelet restarts. `Locks` is a transition
system of any number of installers.

**The robot and its Secret** (`RobotWorld`, `Reconciler`, `DataPlane`, `Rotation`, `Paging`, `Naming`,
`Permissions`). `RobotWorld` is Harbor, the apiserver and everyone else who changes them; `Rely` says
what the bridge can count on while others act. `Reconciler.Bridge` is the control plane's code, call
by call. Each call meets a turn of an arbitrary script: what others do first, and whether the call
works, fails, or takes effect and reports an error. A script that ends is a process that died, so
what a pass ensures for every script holds at every point of every pass.

**The signing-key cache** (`KeySet`). `Clock` is the unit of time that it shares with the robot's
modules.

## Reading the model

- A Go string or byte slice is a `string` with one character per byte.
- A provider entry is its name, whether it sets the bridge's endpoint, and the rest of its content. A
  config is a header and a list of items. The encoders are taken to read back what they write.
- A rendered config holds exactly this install's entry, as the chart renders it.
- Passes on one config are taken one after the other; `Locks.Undisturbed` is the reason.
- One pass at a time works on a HarborAccess, as leader election and the work queue see to, and reads
  of the object are current. Nobody else makes robots with its description or removes its finalizer.
- Harbor's passwords are numbered in the order they were minted, and IDs are never reused.
- `List` is taken at one instant in `Reconciler`. `Paging.ListsWhatStays` is the reason this loses
  nothing there: nobody but the bridge makes robots of this HarborAccess, so each one that is there at
  the end of a walk was there throughout.
- The digest in truncated robot names is any function to sixteen-character labels, without
  consecutive hyphens where Harbor's rules matter.

## Where a property needs a condition

- A rollback goes on to restore the config when restoring the record failed. Then the record no
  longer holds the restored entry, and the next pass of another install drops it
  (`SharedNode.LostRecordExample`). `SharedNode.LostRecordExactly` says exactly when.
- When a rollback puts nothing back, the restart that follows it is a second restart onto the
  rejected content (`Restarts.StuckRollbackRestartsTwice`). One restart plus the unrecorded ones is
  the bound exactly in the runs that do not have both such a rollback and a recorded restart, so
  always where the files held the content before (`Restarts.RestartsAreBounded`).
- A namespace so long that the cut of a robot name reaches it shares its robot name with another
  identity (`Naming.CutNamespaceCollides`). The CRD admits such a namespace; Kubernetes does not, as
  the comment there says.
- A project whose entry carries no action never matches what Harbor returns, so it is updated on
  every pass (`Permissions.UpdateConverges` is an equivalence).

## Model

| member | source | states |
|---|---|---|
| `Glob.GlobMatch` | installer/envfile.go:272-331 | the loop that backtracks only to the last star ends and returns what the recursive definition says: a match, no match, or an error exactly when a reading of the elements before a character class reaches it |
| `Glob.GlobBracket` | installer/envfile.go:338-381 | where a bracket expression ends, whether it accepts the byte, and when it is an unsupported class |
| `Glob.LastStarIsEnough` | installer/envfile.go:262-331 | if the elements from a later star on match nothing from some byte on, no earlier choice for a star before it helps |
| `Glob.GlobMagic` | installer/envfile.go:227-244 | the scan finds exactly the components with a star, a question mark or a closed bracket |
| `Glob.GlobUnescape` | installer/envfile.go:248-260 | the loop removes each escaping backslash and nothing else |
| `Glob.PlainComponentMatchesItsName` | installer/envfile.go:183-260 | a component without magic matches exactly one name, the one unescaping gives |
| `EnvFile.Feed` | installer/defaultkubelet.go:280-395 | one byte of the parser's switch is one step of the automaton, with its whitespace marks read as what they stand for |
| `EnvFile.CheckBytes` | installer/defaultkubelet.go:236-244 | a file with a NUL or a stray carriage return is refused |
| `EnvFile.ScanBytes` | installer/defaultkubelet.go:257-395 | after every byte the parser's variables, line counters and list are those of the automaton's walk so far |
| `EnvFile.ParseEnvFile` | installer/defaultkubelet.go:236-406 | the parser returns the assignments of the whole text with their lines, or the reason for which it refuses it |
| `EnvLines.Pinned` | installer/defaultkubelet.go:69-84 | an assignment that starts and ends on one line is all that line says: the reader is between assignments before and after it |
| `EnvValues.ValueLine` | installer/defaultkubelet.go:142-150 | a value the installer can unquote is the value systemd reads |
| `EnvValues.TakenApart` | installer/defaultkubelet.go:76-77 | what the installer unquotes after a line's first equals sign is the value systemd reads from the line |
| `Flags.StripCredentialProviderFlags` | installer/defaultkubelet.go:161-179 | the loop with its skip flag removes both flags in both forms |
| `Flags.StripIsFree` | installer/defaultkubelet.go:161-179 | what is left mentions neither flag |
| `Flags.StripMerged` | installer/defaultkubelet.go:161-179 | stripping what was stripped and given the two flags gives it back |
| `Flags.FlagValue` | installer/discover.go:207-217 | the loop returns the last value of the flag in either form |
| `Flags.StrippedHasNoValue` | installer/discover.go:207-217 | stripped of both flags, no command line gives either a value |
| `Flags.OursWin` | installer/discover.go:207-217 | from any arguments that end in ours, kubelet's flags are our two paths |
| `ExtraArgs.ProbeDecides` | installer/defaultkubelet.go:423-439 | the single probe reports open exactly when the file ends in a backslash or not between assignments |
| `ExtraArgs.ClosedReads` | installer/defaultkubelet.go:85-89 | ending the last line of a closed file changes nothing of what is read |
| `ExtraArgs.AppendingIsSafe` | installer/defaultkubelet.go:423-439 | when the probe reports closed, any one-line assignment added at the end adds exactly that assignment |
| `MergeArgs.NewLine` | installer/defaultkubelet.go:81-84 | the line the installer writes is read as one assignment of its words |
| `MergeArgs.OperatorValue` | installer/defaultkubelet.go:76-80 | the value taken from the operator's line is the one systemd reads from it |
| `MergeArgs.MergeKeepsMeaning` | installer/defaultkubelet.go:33-97 | for every file accepted, the result loads, sets KUBELET_EXTRA_ARGS once to the operator's words without the two flags followed by ours, keeps every other assignment with its order, and kubelet reads our two paths from any command line that ends in those words |
| `MergeArgs.MergeIsIdempotent` | installer/defaultkubelet.go:33-97 | merging the result again returns the same bytes |
| `MergeArgs.DroppedHeldOnlyFlags` | installer/defaultkubelet.go:99-131 | the line a repair drops held the two flags and nothing of the operator's |
| `MergeArgs.ExtraAssignments` | installer/defaultkubelet.go:50-55 | the loop picks the assignments of KUBELET_EXTRA_ARGS in order |
| `MergeArgs.OperatorArgs` | installer/defaultkubelet.go:69-82 | the operator's words, or why the line cannot be rewritten |
| `MergeArgs.PlanEdit` | installer/defaultkubelet.go:39-89 | the edit is decided before anything is written, with the source's order of refusals |
| `MergeArgs.MergeExtraArgs` | installer/defaultkubelet.go:33-97 | the installer's edit of lines is the merge the theorems are about |
| `ProviderConfig.ComposeOwnConfig` | installer/providerconfig.go:303-326 | the loop with its seen map keeps the first wanted item of each name, in order, with this install's entry in place or last, and drops the rest |
| `ProviderConfig.ComposedFrom` | installer/providerconfig.go:303-326 | nothing gets in but this install's entry and accepted entries of the file |
| `ProviderConfig.ComposedKeeps` | installer/providerconfig.go:303-326 | every accepted entry stays unless an accepted one of its name precedes it |
| `ProviderConfig.ComposedHasOwn` | installer/providerconfig.go:313-326 | this install's entry is in the result |
| `ProviderConfig.ComposedDistinct` | installer/providerconfig.go:280-290 | no name comes twice, whatever the file held |
| `ProviderConfig.ComposedClean` | installer/providerconfig.go:280-290 | a list of wanted entries with different names keeps its order and every entry but this install's own |
| `ProviderConfig.ComposedAgain` | installer/providerconfig.go:280-290 | composing what was composed changes nothing |
| `ProviderConfig.OtherBridgeProviders` | installer/providerconfig.go:390-406 | the loop collects the names of other installs' bridge entries that count |
| `ProviderConfig.OtherBridgesAre` | installer/providerconfig.go:386-406 | a name is collected exactly when such an entry is there |
| `NodeFiles.Host.BeginRecord` | installer/record.go:96-109 | the record then holds what it held and the new entry, and nothing else changed |
| `NodeFiles.Host.CommitRecord` | installer/record.go:113-115 | the record then holds the new entry only |
| `NodeFiles.Host.RollBack` | installer/run.go:989-997 | each step runs whether or not the one before it failed |
| `NodeFiles.Host.WriteFiles` | installer/run.go:283-293 | the files after each of the writes: record, binary, config, record |
| `NodeFiles.Host.RunPass` | installer/run.go:188-220 | a pass that stops anywhere, finishes or is rolled back leaves exactly these files, and one that meets another program's binary changes nothing |
| `NodeFiles.PassIsItsWrites` | installer/run.go:240-305 | the files a pass leaves are the effect of its writes up to its end |
| `SharedNode.PassKeepsOthers` | installer/run.go:629-644 | wherever a pass stops, the other installs' entries, their order, records and binaries are as before |
| `SharedNode.PassKeepsSound` | installer/record.go:17-38 | a pass keeps every entry held by its record next to its binary, also through a rollback that restored the record |
| `SharedNode.RunKeepsSound` | installer/record.go:17-38 | so does every run of passes of any installs |
| `SharedNode.NoPassRemovesAnothers` | installer/run.go:646-678 | in every run of any number of installs, cut short anywhere or rolled back, an install's entries stay exactly as they are unless the install itself makes a pass |
| `SharedNode.CompletedPassLasts` | installer/run.go:646-678 | after an install's completed pass its entry stays vouched for, whatever the others do |
| `SharedNode.CompletedPassIsExact` | installer/run.go:646-678 | a completed pass leaves the rendered header, the plugin and a record that claims the config and vouches for the new entry and no earlier one of this install |
| `SharedNode.LostRecordExactly` | installer/run.go:989-997 | a rollback whose record write fails leaves the config sound if and only if the restored config holds no other entry of this install |
| `SharedNode.UnheldIsDropped` | installer/run.go:665-678 | an entry its record does not hold is dropped by the next pass of any other install |
| `SharedNode.LostRecordExample` | installer/run.go:300-305 | a concrete node on which that loses another install's entry |
| `SharedNode.WrittenIsVouched` | installer/run.go:646-678 | whatever others wrote into the config, a pass that writes it leaves different names, its own entry, and other entries only as they were and vouched for |
| `StagedMove.BlockedUntilStaged` | installer/run.go:378-418 | a pass is free to move kubelet if and only if every other install has its files staged |
| `StagedMove.BlocksExactly` | installer/run.go:378-418 | on any node, exactly who blocks: installs with an entry that counts in the current config and no vouched one in the config the pass moves to; where a record claims the config, only vouched entries count |
| `StagedMove.StayStep` | installer/run.go:446-505 | an earlier pass leaves kubelet on the old config with everyone in it, and adds this install to those staged |
| `StagedMove.MoveStep` | installer/run.go:129-149 | the last pass moves kubelet to the new config with everyone's entry, binary and record |
| `StagedMove.MovedStep` | installer/run.go:83-89 | later passes keep it there with everyone |
| `StagedMove.LastPassMoves` | installer/run.go:437-463 | in any order and any number of auto passes, kubelet is on the new directories if and only if every install has had a pass, and is always on a config with all of them |
| `StagedMove.Machine.Blocking` | installer/run.go:378-418 | the two listings and the filter give the blocking installs |
| `StagedMove.Machine.RunPatchOn` | installer/run.go:240-322 | a verified pass leaves its files, kubelet's wiring and the state that says so |
| `StagedMove.Machine.StageOwnFiles` | installer/run.go:472-505 | record and binary, then the config, then the record, leaving out a directory that did not change |
| `StagedMove.Machine.RunAuto` | installer/run.go:74-149 | an auto pass patches, moves, or stays and stages |
| `Restarts.SuccessMatches` | installer/run.go:835-887 | a pass succeeds only with a state file that matches its target and with its content in the files |
| `Restarts.NoRestartNeedsRecord` | installer/run.go:842-858 | success without a restart needs a record of one for this content |
| `Restarts.DecidedStays` | installer/run.go:942-962 | once the outcome is recorded, no pass restarts kubelet onto the content again |
| `Restarts.SavedMatches` | installer/state.go:173-196 | a recorded restart covers exactly the passes with its mode, paths and entry, whatever others changed in the file |
| `Restarts.RejectionIsExact` | installer/state.go:145-171 | a recorded rejection covers exactly its content, unit and, as far as known, kubelet |
| `Restarts.PassRestarts` | installer/run.go:874-936 | a pass restarts onto its content twice if and only if it changed the files, kubelet rejected them and the rollback put nothing back; otherwise at most once; a recorded outcome decides the matter |
| `Restarts.RestartsAreCounted` | installer/run.go:827-962 | over any run with one target, from any state file: the restarts are those that ended unrecorded, those that were recorded, at most one, and the second ones of stuck rollbacks, at most one, and none if the files held the content before |
| `Restarts.RestartsAreBounded` | installer/run.go:827-962 | at most one restart plus one for each pass that ended unrecorded, if and only if the run does not have both a recorded restart and a stuck rollback; never more than one above that |
| `Restarts.StuckRollbackRestartsTwice` | installer/run.go:903-911 | a run that has both and restarts once more |
| `Restarts.Installer.FinishWithRestart` | installer/run.go:835-887 | the restart policy step by step |
| `Restarts.Installer.RejectRestart` | installer/run.go:898-936 | restore, restart onto what was restored, and record the rejection next to the last verified state |
| `Restarts.Installer.Pass` | installer/run.go:279-321 | refuse rejected content, write, finish |
| `Locks.RunsAreExclusive` | installer/lock.go:16-41 | in every run every lock has at most one holder |
| `Locks.ChainsAreShort` | installer/lock.go:37-38 | whoever is waited for by a waiting installer has all its locks |
| `Locks.NoCycle` | installer/lock.go:37-38 | for any number of installers in any modes, no run reaches a cycle of installers that wait for each other |
| `Locks.SomeoneGoesOn` | installer/lock.go:37-38 | while anyone waits, someone can take a lock or has all of its own |
| `Locks.Undisturbed` | installer/run.go:324-361 | while a pass has its locks, no other installer changes the config kubelet reads now or the pass's own |
| `RobotWorld.StartsSound` | bridge/controlplane/reconciler.go:202-222 | a world in which nothing was done for this HarborAccess satisfies the invariant |
| `RobotWorld.RelyKeeps` | bridge/controlplane/reconciler.go:321-331 | whatever others do keeps the invariant |
| `RobotWorld.RemoveFinalizerKeeps` | bridge/controlplane/reconciler.go:532-546 | the finalizer may go once no robot of this HarborAccess is left |
| `RobotWorld.CreateKeeps` | bridge/controlplane/reconciler.go:202-207 | a robot may be created once the finalizer is there; its password is then pending |
| `RobotWorld.RefreshKeeps` | bridge/controlplane/reconciler.go:374-387 | a password may be replaced when the Secret is gone, another robot's, or due |
| `RobotWorld.UpdateKeeps` | bridge/controlplane/reconciler.go:321-331 | a robot may be enabled when its password is from after its last suspension |
| `RobotWorld.SuspendKeeps` | bridge/controlplane/reconciler.go:511-518 | suspending makes every password so far dead for good |
| `RobotWorld.PutKeeps` | bridge/controlplane/reconciler.go:948-961 | the Secret may take the password that is pending for its robot |
| `RobotWorld.ReasonIsGood` | bridge/controlplane/reconciler.go:691-727 | a reason to rotate found on the Secret as read is still good when the call arrives, whatever others did |
| `RobotWorld.RenderedAgain` | bridge/internal/robotsecret/robotsecret.go:193-203 | a promise that was read is rendered as it was |
| `Reconciler.Bridge.EnsureFinalizer` | bridge/controlplane/reconciler.go:208-222 | success means the finalizer is there and the object is not gone |
| `Reconciler.Bridge.EnsureRobot` | bridge/controlplane/reconciler.go:625-687 | finds, creates or recovers the robot, never one that is another's |
| `Reconciler.Bridge.Resume` | bridge/controlplane/reconciler.go:332-356 | wherever it stops, the robot is still disabled or no Secret of the bridge is left; success leaves a new password pending |
| `Reconciler.Bridge.Converge` | bridge/controlplane/reconciler.go:358-372 | sends the spec's grants and description, and the disabled flag as it was |
| `Reconciler.Bridge.Rotate` | bridge/controlplane/reconciler.go:374-391 | with a reason a new password is minted and stored under a new promise; without one nothing is written |
| `Reconciler.Bridge.Put` | bridge/controlplane/reconciler.go:995-1056 | writes over the version that was read, or reports the race |
| `Reconciler.Bridge.WriteSecret` | bridge/controlplane/reconciler.go:962-985 | stores the new password on top of whatever became of the Secret, unless it is another's |
| `Reconciler.Bridge.ServePassword` | bridge/controlplane/reconciler.go:332-391 | created, suspended or other: a calm pass leaves the robot served |
| `Reconciler.Bridge.ReconcileNormal` | bridge/controlplane/reconciler.go:224-414 | keeps the invariant for every script; a calm pass leaves the robot with the spec's grants, the Secret with its password under a promise that is not over, the finalizer, and no other robot when something changed |
| `Reconciler.Bridge.SuspendRobotAt` | bridge/controlplane/reconciler.go:493-530 | keeps the invariant; a calm call leaves no enabled robot of this HarborAccess at the name |
| `Reconciler.Bridge.Suspend` | bridge/controlplane/reconciler.go:466-480 | the Secret goes first; the robot follows while a finalizer is held |
| `Reconciler.Bridge.ReleaseRefused` | bridge/controlplane/reconciler.go:547-582 | a finalizer that goes leaves no robot behind |
| `Reconciler.Bridge.Refuse` | bridge/controlplane/reconciler.go:424-449 | the whole pass over a refused object, with the same promise |
| `Reconciler.Bridge.RemoveOwned` | bridge/controlplane/reconciler.go:778-798 | success leaves no robot of this HarborAccess but the one kept; a calm call removes no other robot |
| `Reconciler.Bridge.RemoveOwnSecret` | bridge/controlplane/reconciler.go:586-604 | success leaves no Secret of the bridge and never touches another's |
| `Reconciler.Bridge.ReconcileDelete` | bridge/controlplane/reconciler.go:800-855 | robots, Secret, finalizer, in this order; a finalizer that goes leaves no robot behind |
| `Reconciler.Bridge.Reconcile` | bridge/controlplane/reconciler.go:181-200 | one pass for every script: the invariant, and for a calm one what it is for |
| `Reconciler.Bridge.Run` | bridge/controlplane/reconciler.go:181-200 | after any number of passes stopped, failing or disturbed anywhere: the invariant; a Secret without a reason to rotate holds the robot's current password; without the finalizer no robot of the HarborAccess is left; all versions of the Secret with one password carry one promise |
| `DataPlane.WithinPromise` | bridge/dataplane/handler.go:587-609 | what kubelet is told to keep ends within the promise, on the answering replica's clock, is nothing once the promise is over, and is otherwise less than a second short of the promise, the token time or the plugin's limit |
| `DataPlane.CacheEndsBeforeRotation` | bridge/dataplane/handler.go:591-672 | a password from any version the Secret ever had, kept with a positive cache time, is not replaced on schedule before that time ends, while latency and clock skew stay within the margin |
| `Rotation.ResyncBounds` | bridge/controlplane/reconciler.go:764-773 | the resync interval is within the last tenth of an hour |
| `Rotation.RequeueBounds` | bridge/controlplane/reconciler.go:750-762 | the next pass is asked for no later than the rotation instant, but not within a second |
| `Rotation.PasswordsStayYoung` | bridge/controlplane/reconciler.go:691-773 | over every run of passes that come on time, a password is younger than 24 hours, a minute and two seconds when the next pass comes, and one that is due is replaced by it |
| `Rotation.LimitIsReached` | bridge/controlplane/reconciler.go:753-762 | but for two nanoseconds that limit is reached |
| `Paging.TakePage` | bridge/controlplane/harbor/client.go:452-466 | the inner loop takes up a page, skipping missing elements, and stops at an ID that does not increase |
| `Paging.List` | bridge/controlplane/harbor/client.go:443-471 | the loop is the walk by cursor, with its page limit |
| `Paging.ListedInOrder` | bridge/controlplane/harbor/client.go:428-431 | against any server, a listing that succeeds has strictly increasing IDs |
| `Paging.ListsWhatStays` | bridge/controlplane/harbor/client.go:414-431 | while others delete and create robots between pages, a listing that succeeds holds every robot that was there throughout exactly once, and none that never was |
| `KeySet.OneFetchAtATime` | bridge/dataplane/oidc_keyset.go:179-249 | in every interleaving a fetch starts at least 30 seconds after the one before it ended |
| `KeySet.CachedAreLatestGood` | bridge/dataplane/oidc_keyset.go:234-249 | in every interleaving the cached keys are those of the latest fetch that succeeded, however many failed since |
| `KeySet.StartsInAWindow` | bridge/dataplane/oidc_keyset.go:218-222 | however many tokens arrive, W seconds see at most W/30 + 1 starts |
| `KeySet.LookUpKeepsFresh` | bridge/dataplane/oidc_keyset.go:176-188 | after a look-up the keys are at most ten minutes old, or a fetch runs, or the last one ended less than 30 seconds ago |
| `KeySet.CachedKeySet.CachedKeys` | bridge/dataplane/oidc_keyset.go:179-188 | the cached keys at once, with a fetch started when they are stale and one may start |
| `KeySet.CachedKeySet.RefreshedKeys` | bridge/dataplane/oidc_keyset.go:195-216 | wait for the running or a new fetch, or take the cached keys with the last failure |
| `KeySet.CachedKeySet.RunFetch` | bridge/dataplane/oidc_keyset.go:234-249 | the end of a fetch; after a failure those who waited get the last good keys |
| `Naming.NamesAreInjective` | bridge/controlplane/harbor/naming.go:119-146 | two identities, neither cut inside its namespace, share a robot name only if they are the same or both are truncated with equal digests |
| `Naming.CutNamespaceCollides` | bridge/controlplane/harbor/naming.go:91-146 | when the cut reaches the namespace, the name is also another identity's, so the condition above is exact |
| `Naming.NamesFit` | bridge/controlplane/harbor/naming.go:119-146 | no name is longer than 240 characters |
| `Naming.AcceptedExactly` | bridge/controlplane/harbor/naming.go:107-146 | a name is one Harbor accepts if and only if neither the cluster nor what the name keeps of namespace and ServiceAccount has consecutive hyphens |
| `Naming.OwnedByItsClusterOnly` | bridge/controlplane/harbor/naming.go:151-202 | a name is owned by its own cluster and no other, and is no cluster's legacy name |
| `Naming.ValueIsCut` | bridge/controlplane/contract.go:98-109 | looking for a key at the front of a token is cutting it at the first equals sign |
| `Naming.DescriptionReadsBack` | bridge/controlplane/contract.go:60-129 | descriptions, suspended or not, are read back as cluster and HarborAccess, and only the suspended one is suspended |
| `Naming.OwnedByOneOnly` | bridge/controlplane/contract.go:171-180 | a robot made for a HarborAccess is owned by that one of that cluster only |
| `Permissions.Gather` | bridge/controlplane/harbor/client.go:639-651 | the map holds the actions of each project over all its entries |
| `Permissions.NormalizePermissions` | bridge/controlplane/harbor/client.go:638-667 | one entry per project in order, its actions once and in order |
| `Permissions.BeforeIsStrict` | bridge/controlplane/harbor/client.go:669-683 | the orders of projects and of actions are total |
| `Permissions.MatchExactly` | bridge/controlplane/harbor/client.go:615-632 | two lists match if and only if they name the same projects and grant the same actions on each |
| `Permissions.MatchIsGrants` | bridge/controlplane/harbor/client.go:615-632 | for lists whose entries all grant something, if and only if the grants are equal |
| `Permissions.NormalAgain` | bridge/controlplane/harbor/client.go:634-637 | the canonical form means the same and is its own canonical form |
| `Permissions.ReadBack` | bridge/controlplane/harbor/client.go:690-766 | what Harbor is sent is read back as the same grants |
| `Permissions.UpdateConverges` | bridge/controlplane/harbor/client.go:615-766 | a robot read back after an update with the desired grants matches them if and only if every project of theirs is granted an action |

## Left out

- YAML and JSON encoding, `checkRoundTrip`, SHA-256, the Harbor SDK, go-oidc and go-jose: library code, taken as functions that read back what they write.
- `mergeProvider` and `kubeletStartProblems` (merging into a cloud's config): one replacement in a list and one scan, easy beside the rest.
- Files, modes, symlinks, /proc, systemctl: a write is one step, a restart is a step with an outcome.
- Expanding an environment-file pattern over directories; only the matcher is here.
- Directories of kubelet config files, and the environment file and CA files in the shared-node model: none of them holds entries.
- Planted items in the config are covered for a pass that writes it (`SharedNode.WrittenIsVouched`), not in the runs of `SharedNode.NoPassRemovesAnothers`.
- Locks are taken by steps of a plan; the polling with a deadline is a step that ends the pass.
- Passes over different configs at the same time in the shared-node model, and auto passes that resolve to merge in `StagedMove`.
- Calls that time out and take effect only later than the next call: an effect happens before the call returns or not at all.
- The optimistic lock on the HarborAccess object: a conflict is a call that fails.
- Status, conditions, events and backoff; label selectors; robots with this bridge's description under a name outside its prefix; Secrets without annotations or edited by hand; robots re-enabled or given a new secret in Harbor's own interface.
- `GetByName`'s fallbacks for a Harbor with another prefix or filter: a lookup returns the robot of that name or none.
- The janitor, beyond deleting robots at any moment.
- The error `RobotName` returns for a name Harbor refuses: `Naming.AcceptedExactly` says for which identities that is, and refusing more names keeps them apart.
- Permissions.NormalizePermissions: blanks are space, tab, line feed and carriage return; other Unicode spaces around an action are not trimmed in the model.
- KeySet.CachedKeySet.RefreshedKeys: says whether there is a fetch to wait for; a caller whose context ends while it waits gets an error and changes nothing in the cache.
- Naming.DescriptionReadsBack: descriptions the bridge did not write are split at the same four blanks only.
- Rotation.PasswordsStayYoung: a pass mints at the instant it reads the clock; the duration of its calls is not counted.
- HTTP, TLS, metrics, audit logs, rate limits and configuration.

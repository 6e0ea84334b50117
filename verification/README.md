# Taumaru MicroVM: a verified model

Taumaru runs Firecracker MicroVMs on one host. Its SDK (`crates/sdk`) starts, stops and resizes machines, keeps a
cache of downloaded artifacts, prunes it, and captures snapshots; its command line (`crates/cli`) plans and executes
downloads and installs a systemd unit per home directory. This project models the parts whose correctness spans
many fallible steps, and proves what they keep for every run, every interleaving and every failure.

`dafny verify dfyconfig.toml` checks everything. The modules:

| module | models |
|---|---|
| `Host` | the world of one machine (processes, socket entry, Device Mapper mapping, rows, disk) and the fallible ports to it |
| `Lifecycle` | `start_microvm` and `stop_microvm` |
| `Update` | `update_microvm` and the ext4 resize under it |
| `Runs` | any sequence of those calls, with crashes at any instant |
| `Cache` | `download_member` and prune interleaving on one artifact; the transfer itself |
| `Reuse` | what the cache is for: a file that is there is used, and what was downloaded is recorded |
| `LateWrites` | the same, with operations that outlive the dropped task they belong to |
| `Snapshot` | the snapshot worker, over copy-on-write views of a disk that its guest keeps writing |
| `Ordering`, `Packages`, `Planner` | sorting and canonical lists, the choice of runtime packages, the download plan |
| `Executor`, `Reports` | the three-phase execution of a plan, and what its report says |
| `Keys`, `Prune` | artifact keys and their parser; prune and its preview |
| `Creation` | the progress events of a creation |
| `Boot` | the systemd escaping of a home directory |

How the outside world is modelled:

- Every port of the lifecycle is a method of `Host.Host` that may fail at any call, and before each one time passes:
  a live process may exit, touch its socket entry and write to its disk. The contracts are those of the port traits
  (`crates/sdk/src/ports/runtime.rs`, `runtime_disk.rs`, `repository.rs`, `storage.rs`). firectl and the Firecracker
  it supervises count as one process. The control socket may give any answer at any time: no safety property relies
  on it. A failed release or attachment of a mapping may have taken effect or not; a failed row write leaves the row.
- Ghost counters (`faults` of `Host.Host` and of `Snapshot.Machine`) count failed operations. `Lifecycle.Excused`,
  `Update.Excused` and the contract of `Snapshot.CreateSnapshot` use them to say that a call gives up only for a
  reason: an operation failed, or the trace shows what the error claims. A success means that none failed.
- The trace of a call records its probes, checks, waits, requests, signals and writes in order (`Host.Event`), so that a
  contract can say what must have been seen before what was done (`Lifecycle.Then`).
- In the download executor and prune the outside world is a parameter (`Schedule`, `Weather`), and the theorems
  quantify over it.
- A file in the cache is its size and its SHA-256 digest; digests are opaque strings, and the hash function of a
  transfer is any byte-by-byte state machine. Semantic versions are abstracted to their rank in the version order.
- Error texts are abstracted to the step that failed, and group labels to the kind and identifiers they are made of.

What the proofs found:

- A start loses track of a live process in exactly one way: neither the first `starting` write nor the retry during
  cleanup reached the row. A failed retry alone is harmless, since the row then still names the process. A crash of
  the SDK between the launch and the first write has the same effect.
- After a launch, a start may fail without cleaning up not only when the final `running` write fails but also when
  the row cannot be read back; in both cases the row names the process. The third possibility in the text of the
  code, a result rejected after that, cannot happen.
- The unchanged-values early return of an update comes before convergence, so a file whose length disagrees with its
  row stays so. The convergence itself resizes without releasing the mapping.
- Prune drops its summary and its failures exactly when the bytes freed for kernels and for images, each saturated, do
  not fit 64 bits together. Three files of the largest possible size are enough: all are gone, and the caller is told
  of none.
- Two images may share an artifact key. The left-over download row of an image whose distribution identifier has a
  colon after its first character is taken for another image, so prune may delete its file while a machine refers to
  it; no other artifact can lose its file that way.
- A home with a `.` or `..` component would get a unit name that systemd refuses to expand; the code resolves the home
  first (`crates/cli/src/boot.rs:152`), so none reaches the escaping.
- A download that is dropped during a repository or file operation releases its lock while the operation goes on. Its
  row may then land over another file, exactly when two downloads expect different files at that path; and its
  removal may take the file that a later download has just published, even if both expect the same. The row writes of
  lifecycle calls run the same way: the `stopped` row of a dropped stop may land over a process started since.
- Above `u64::MAX / 6` bytes the product under the percent of a creation wraps. Whether the percent then leaves its
  band depends on what is left of the product, and the exact condition is proved; totals that can be stored are
  found on both sides of it. None of them divides by zero. Below the limit, a finished stage of more than
  `u64::MAX / 96` bytes stops short of its share, because the product with 100 saturates.

## Model

| member | source | states |
|---|---|---|
| `Lifecycle.Start` | crates/sdk/src/manager.rs:1806-1983 | From any world and through any failures: at most one process is launched, only after a silent socket, a dead recorded process, a released mapping and every check, with the executables that were verified, and on an attached mapping; a success has heard the launched or adopted machine answer, and no port failed; the boundary invariant survives every return except the one that reports a lost identity; after a launch every error is a cleanup error, or leaves everything stopped, or (failed `running` write or re-read) leaves the process recorded, and a launch that is given up was signalled and waited for; an answering socket never leads to a launch, and a live recorded process is then adopted; no error without its reason |
| `Lifecycle.Stop` | crates/sdk/src/manager.rs:1988-2089 | Ok means no process, no mapping, no socket entry and a stopped row without pid, and no port failed; a machine that answers is asked to stop, a silent one is not; without force, nothing was seen to run or the guest stopped when asked; `forced` exactly when this call signalled; a signal only to a process confirmed in the step before, after an accepted shutdown request and a wait in vain; an error with the process alive keeps the row; no error without its reason |
| `Lifecycle.FinishStopped` | crates/sdk/src/manager.rs:2891-2905 | Mapping first, then socket entry, row last: an error leaves the row as it was, except a rejected result, which comes after the row |
| `Lifecycle.VerifyRecordedProcessExited` | crates/sdk/src/manager.rs:2866-2888 | Ok means the recorded process, if any, is dead; the two errors mean a failed check and a process seen alive |
| `Lifecycle.RemoveStaleSocket` | crates/sdk/src/manager.rs:3061-3079 | Ok with nothing alive means no entry is left; an entry goes only right after a silent probe; it fails only on a fault or an answering socket, and then nothing changed |
| `Lifecycle.Adopt` | crates/sdk/src/manager.rs:1834-1883 | Never launches; returns the recorded pid exactly when it is alive with an adoptable state and no port fails, and then the row says running |
| `Lifecycle.ClearTheWay` | crates/sdk/src/manager.rs:1903-1909 | Release, removal and reset before a launch: on success nothing runs, no entry is left and the row is stopped; on failure the start contract holds |
| `Lifecycle.CleanupUnstarted` | crates/sdk/src/manager.rs:2907-2933 | After a launch that made no process: its last steps released the mapping and wrote a stopped row, or it is a cleanup error |
| `Lifecycle.CleanupFailedLaunch` | crates/sdk/src/manager.rs:2936-2998 | A launched process that is given up is signalled and waited for; then everything is undone, or the cleanup error keeps the identity and the mapping of a process that may live |
| `Lifecycle.ThenMeans` | crates/sdk/src/manager.rs:1806-2089 | The order of two events in a trace, by their positions |
| `Lifecycle.RecordRunning` | crates/sdk/src/manager.rs:1966-1983 | The steps after readiness: a failure of either leaves the running process recorded |
| `Update.Update` | crates/sdk/src/manager.rs:2165-2411 | Ok: every requested value is there and every other as before, the distribution's minimums are met and no port failed; with a change, file length = recorded size; an error after convergence that is not a cleanup error: file length = recorded old size; only a machine seen silent and dead is touched; the mapping is released only after the usage was found to fit, and the filesystem resized only after it was checked; the row never holds anything but the old or the wanted values, at any instant; the disk holds its filesystem and its content throughout; no error without its reason |
| `Update.ChangeDisk` | crates/sdk/src/manager.rs:2340-2371 | Measure, release, resize, resize back: success has the target length and no mapping, a plain failure the previous length |
| `Update.ConvergeDisk` | crates/sdk/src/manager.rs:2318-2339 | Brings the file to its recorded size; a failed look leaves it as it was, and convergence fails only on a fault, below one sector, or when the filesystem does not fit |
| `Update.ResizeRootfs` | crates/sdk/src/adapters/storage/ext4.rs:617-688 | Success leaves the file at exactly the target, never below the filesystem; signature and consistency are checked before every resize2fs; without a fault it fails only below one sector or when the filesystem does not fit |
| `Update.MebibytesAreTheCeiling` | crates/sdk/src/manager.rs:2283-2298 | The stored MiB are the exact ceiling of the bytes |
| `Runs.Run` | crates/sdk/src/manager.rs:1833-1983 | Over any calls that end or crash at any instant, any failures and any exits: every boundary keeps the invariant and every instant has at most one live process, its mapping attached, a sound disk, and no release under a live process, until a start reports the loss of its process or crashes |
| `Runs.LateRowKeepsTrackExactly` | crates/sdk/src/manager.rs:3120-3146 | A row write that outlives its dropped call keeps the invariant if and only if it names every live process; a `stopped` row over a live process loses track |
| `Runs.Perform` | crates/sdk/src/manager.rs:1806-2411 | One call keeps the boundary invariant if and only if it is not the one reply that loses track with the process still alive |
| `Runs.SafeTraceIsSafe` | crates/sdk/src/manager.rs:1903-1919 | What the calls guarantee of their traces is safety at each instant |
| `Host.Host.Launch` | crates/sdk/src/ports/runtime.rs:34-43 | A process comes alive only here; an error or a zero identifier means none was made |
| `Host.Host.WaitForStop` | crates/sdk/src/ports/runtime.rs:65-87 | True only once the given process is gone; nothing is assumed of the socket |
| `Host.Host.ProcessReferences` | crates/sdk/src/ports/runtime.rs:12-24 | Whether this very process is alive, at the instant of the call |
| `Cache.CacheIsTruthful` | crates/sdk/src/manager.rs:4119-4310 | In every state of every interleaving with failures, cancellation and crashes, of jobs for any files, as long as no operation outlives its task: a row agrees with the file or the file is absent; one task in the critical section; a successful download holds a verified file at return |
| `LateWrites.TruthfulExactly` | crates/sdk/src/manager.rs:4012-4019 | With operations that outlive their dropped tasks, every reachable row is truthful if and only if all downloads are for the same file |
| `LateWrites.OneFileIsTruthful` | crates/sdk/src/manager.rs:4119-4310 | With downloads for one file, in every run: the row is truthful, a success reports the expected file, and the file is there unless a removal was left under way |
| `LateWrites.DeliveredExactly` | crates/sdk/src/manager.rs:4119-4310 | Over all runs of downloads for one file, every success has its file at return if and only if no removal may be left under way |
| `LateWrites.TwoFilesMayLie` | crates/sdk/src/manager.rs:4012-4019 | With two, a run that ends with a row that contradicts the file |
| `LateWrites.RemovalMayTakeTheFile` | crates/sdk/src/manager.rs:5383-5401 | A run, for one file, in which a download returns successfully and its file is gone |
| `LateWrites.ActKeepsLateInv` | crates/sdk/src/manager.rs:4119-4310 | Every step, drop, crash and landing keeps what the theorem for one file rests on |
| `Reuse.CachedFileIsUsed` | crates/sdk/src/manager.rs:4119-4234 | A download that takes the lock while the expected file is there never removes or replaces it, never drops the row, leaves a complete row as it is, transfers nothing and, unless a step fails, returns that file |
| `Reuse.SuccessIsRecorded` | crates/sdk/src/manager.rs:4236-4342 | Without prune, a successful download leaves a complete row |
| `Reuse.CompleteExactly` | crates/sdk/src/adapters/persistence/sqlite.rs:73-177 | A row is complete for a spec exactly when it is the row that a download of it records |
| `Reuse.OtherSizeIsNoticed` | crates/sdk/src/manager.rs:4184-4222 | Even a file changed from outside is not returned if its size is another or it is not regular |
| `Reuse.ErrorsComeFromFailures` | crates/sdk/src/manager.rs:4165-4172 | Without a failure a download ends in an error in one case only: a binary with a complete row and no file |
| `Cache.StepKeepsInv` | crates/sdk/src/manager.rs:103-144 | Every single step of a download or a prune keeps the invariant, also prune's row deletion after it dropped the lock |
| `Cache.DownloadStepIsSound` | crates/sdk/src/manager.rs:4119-4310 | A download step, working or failing with or without effect, keeps the row truthful and establishes what the next step relies on |
| `Cache.RunKeepsInv` | crates/sdk/src/manager.rs:4119-4388 | The invariant holds in every state of every run |
| `Cache.TrustWithoutHashing` | crates/sdk/src/manager.rs:150-169 | A complete row may be trusted without hashing: the file is the expected one or absent |
| `Cache.PruneFreesWhatItSaw` | crates/sdk/src/manager.rs:103-144 | The bytes prune reports are those of the file it deleted |
| `Cache.StreamToTemporary` | crates/sdk/src/manager.rs:4390-4473 | Succeeds exactly when nothing interrupts it and the body has the expected size and digest; then the file is the whole body |
| `Cache.AbsorbSplits` | crates/sdk/src/manager.rs:4422-4467 | Hashing chunk by chunk is hashing the whole |
| `Snapshot.CreateSnapshot` | crates/sdk/src/manager.rs:1134-1375 | A published archive is the disk at one instant of the call (of the view's attachment, when running), sanitised exactly under RegenerateIpv4, after every resource was removed and the last look at the token; every acquired resource gets its removal attempt, child before parent; the live disk is what the guest alone made of it; no error without its reason |
| `Snapshot.Capture` | crates/sdk/src/manager.rs:1153-1298 | The captured content on every path: stopped, parent view, nested child, full copy |
| `Snapshot.PreparePrivate` | crates/sdk/src/manager.rs:1168-1246 | The private source shows the sanitised frozen disk, on the nested and on the fallback path; the fallback only when nesting is unsupported; neither the live disk nor the parent changes |
| `Snapshot.CopyExact` | crates/sdk/src/adapters/storage/ext4.rs:162-250 | A successful copy of a source that stayed trustworthy is that source, whatever the guest writes meanwhile |
| `Snapshot.Archive` | crates/sdk/src/manager.rs:1253-1297 | A payload read from a view counts only if the view is still valid after the last read |
| `Snapshot.Cleanup` | crates/sdk/src/manager.rs:1300-1342 | One removal attempt per acquired resource, in order, whatever fails before |
| `Snapshot.PublishUnlessCancelled` | crates/sdk/src/manager.rs:1343-1375 | Nothing is published after a cancelled last check |
| `Snapshot.CopyOnWriteKeepsView` | crates/sdk/src/ports/runtime_disk.rs:17-26 | Saving a block before its first overwrite keeps the view what it was |
| `Packages.SameFirstChoice` | crates/cli/src/commands/download.rs:330-360 | The package the planner picks is the first the SDK tries, whatever order each got the packages in |
| `Packages.PlannedIsUsed` | crates/sdk/src/manager.rs:3461-3535 | A planned package that installs soundly is the one that creation uses |
| `Packages.SelectRuntimeBinary` | crates/sdk/src/manager.rs:3461-3535 | Returns the best sound candidate; none only when no candidate is sound |
| `Packages.PickIsBest` | crates/cli/src/commands/download.rs:330-365 | The planner's pick is a best candidate; none only when there is no provider |
| `Packages.BestIsNewest` | crates/cli/src/commands/download.rs:341-347 | A best candidate is usable on the host and provides the component, and no other such package has a newer version, or the same version and an earlier identifier |
| `Planner.BuildPlan` | crates/cli/src/commands/download.rs:490-583 | The answer is the plan, or the first error, of the sorted and deduplicated pairs |
| `Planner.PlanDependsOnTheSet` | crates/cli/src/commands/download.rs:490-583 | Any order and any repetition of the same pairs gives the same plan or the same error |
| `Planner.PlanIsExact` | crates/cli/src/commands/download.rs:490-583 | Runtime, then kernels, then images, no artifact twice, each with its own size, the exact total; the images are the selected pairs, each with the image and the default kernel of its own distribution, all for the host; the packages are those picked |
| `Planner.ResolveExactly` | crates/cli/src/commands/download.rs:299-328 | Each error of a pair comes exactly when the part it names is missing or for another architecture, and otherwise the named parts are selected |
| `Planner.NoDistributionExactly` | crates/cli/src/commands/download.rs:503-509 | The missing distribution, exactly |
| `Planner.SelectRuntimePackages` | crates/cli/src/commands/download.rs:330-386 | The two picks, once each, by identifier, measured; or the first error |
| `Planner.MeasuredIsTotal` | crates/cli/src/commands/download.rs:371-385 | What was measured is what the runtime members add up to, so the plan's own sum cannot fail on them |
| `Planner.ResolveAll` | crates/cli/src/commands/download.rs:503-532 | Every pair's selection in order, or the error of the first pair that has one |
| `Planner.UniqueKernels` | crates/cli/src/commands/download.rs:535-540 | Exactly the kernels of the selections, each once, by identifier |
| `Planner.KernelsAreUnique` | crates/cli/src/commands/download.rs:535-540 | There is one such list |
| `Planner.PackageSize` | crates/cli/src/commands/download.rs:465-474 | The exact sum of the files, or the error when it does not fit |
| `Planner.PushMembers` | crates/cli/src/commands/download.rs:549-576 | Pushing members adds their exact sizes, or fails exactly when the sum does not fit |
| `Ordering.LessMeans` | crates/cli/src/commands/download.rs:341-347 | The order of strings is lexicographic |
| `Ordering.SortBySorts` | crates/cli/src/commands/download.rs:500-502 | Sorting is a sorted permutation |
| `Ordering.Dedup` | crates/cli/src/commands/download.rs:500-502 | A sorted list becomes the strictly increasing list of the same elements |
| `Ordering.AscendingIsUnique` | crates/cli/src/commands/download.rs:500-502 | A set has one strictly increasing list |
| `Executor.Execute` | crates/cli/src/commands/download.rs:710-915 | For every schedule the report is the story of the run; an error comes only from a broken signal handler or progress event, never from adding sizes |
| `Executor.RuntimePhase` | crates/cli/src/commands/download.rs:732-779 | The first phase, cut short by cancellation, by a failed package or by an error |
| `Executor.KernelPhase` | crates/cli/src/commands/download.rs:781-853 | The second phase; the remembered kernels are exactly those whose transfer failed |
| `Executor.ImageStep` | crates/cli/src/commands/download.rs:855-913 | One image: skipped for its kernel before cancellation is looked at |
| `Executor.AppendCancelledAfterKernel` | crates/cli/src/commands/download.rs:957-977 | Every member from the given kernel on is appended as cancelled, kernels and then images |
| `Executor.NextFits` | crates/cli/src/commands/download.rs:647-652 | The next member always fits: the checked additions cannot fail |
| `Executor.AvailabilityMeans` | crates/cli/src/commands/download.rs:917-931 | Mixed exactly when two files differ, and otherwise what all files have in common |
| `Reports.OneStory` | crates/cli/src/commands/download.rs:710-915 | A plan and a schedule have one report, or an error, never both |
| `Reports.GroupsFollowThePlan` | crates/cli/src/commands/download.rs:723-992 | Labels are a prefix of the members' in order, all of them unless a runtime package failed, whose group is last; a cancelled run says so in its last group |
| `Reports.GroupsSayWhatHappened` | crates/cli/src/commands/download.rs:744-911 | Verified or failed exactly when the transfer was started and ended so, with its availability or its reason; skipped and cancelled members were not transferred |
| `Reports.BytesAreExact` | crates/cli/src/commands/download.rs:647-652 | Available bytes are those of the verified members, at most the plan's, all of them when every member is verified |
| `Reports.ExitCodeIsExact` | crates/cli/src/commands/download.rs:654-670 | Zero exactly when every member was verified, with every expected byte available; 130 exactly when a group is cancelled |
| `Reports.ReportCodeIsExact` | crates/cli/src/commands/download.rs:654-670 | The same of the report as a value |
| `Reports.ImagesWait` | crates/cli/src/commands/download.rs:732-876 | Before an image's transfer starts, every runtime package and its own kernel were transferred and verified |
| `Reports.SkippedExactly` | crates/cli/src/commands/download.rs:855-866 | A reached image is skipped exactly when its own kernel failed |
| `Prune.PruneUnused` | crates/sdk/src/manager.rs:2499-2556 | From the repository's three lists, an orphan under the identity its key parses to: each candidate has the fate its file and row decide, and the caller is told exactly those fates |
| `Prune.PruneCandidate` | crates/sdk/src/manager.rs:2558-2801 | One candidate: its one entry in the summary, and the one file that may go |
| `Prune.CandidatesAreTheRows` | crates/sdk/src/manager.rs:2500-2538 | The candidates are the repository's rows in order, an orphan under the identity its key parses to |
| `Prune.Disk.Delete` | crates/sdk/src/manager.rs:103-144 | A file goes exactly when its path is below home, its lock free, nothing fails and it is regular, and its size is what is accounted; skipped exactly when locked, absent exactly when nothing is there; no other file changes |
| `Prune.StepsAgreeWithDeletion` | crates/sdk/src/manager.rs:103-144 | The deletion here and the steps of a prune task in `Cache` decide alike |
| `Prune.ListPruneCandidates` | crates/sdk/src/manager.rs:2422-2497 | The preview lists exactly the prunable artifacts, sorted, and the saturated sum of their recorded sizes |
| `Prune.PruneIsHonest` | crates/sdk/src/manager.rs:2499-2801 | The reported artifacts are those of the candidates that went away (unreferenced, deletable, row dropped), the skipped keys those of the locked ones, the failed keys those of the ones that resisted, one entry each; the freed bytes are the sum of the sizes found at the paths of those that went away |
| `Prune.OneEntryEach` | crates/sdk/src/manager.rs:2558-2801 | What one candidate adds to the summary: its identity or its key in one list and nowhere else, or nothing; one that went away leaves nothing at its path |
| `Prune.OverflowExactly` | crates/sdk/src/manager.rs:2544-2555 | The answer is the overflow, and nothing else, if and only if the bytes found for the kernels that went and for the images that went, each saturated, exceed 64 bits together |
| `Prune.OverflowLosesTheSummary` | crates/sdk/src/manager.rs:2544-2555 | Two kernels and an image of the largest size a file can have: all three are deleted, and the answer is the overflow alone |
| `Prune.ReferencedOrphanIsProtected` | crates/sdk/src/manager.rs:2695-2726 | The orphan row of an artifact that a machine refers to is left alone, if the artifact can be named |
| `Prune.ReferencedOrphanIsSafeExactly` | crates/sdk/src/manager.rs:2695-2726 | The file of such an orphan is safe under every condition if and only if the key is not that of another artifact |
| `Prune.ColonCostsTheFile` | crates/sdk/src/manager.rs:2695-2726 | For instance, distribution `a:b`: the file goes, under the name of another image |
| `Prune.OtherFilesStay` | crates/sdk/src/manager.rs:2499-2556 | A file that belongs to no prunable candidate stays as it is |
| `Prune.CalmPruneIsThePreview` | crates/sdk/src/manager.rs:2422-2556 | With files in place and nothing in the way, prune removes exactly the preview's sets and frees exactly its estimate, unless the two sums overflow together |
| `Keys.ParseInvertsKey` | crates/sdk/src/ports/repository.rs:182-210 | The identity is recovered from the key exactly when no name is empty and the distribution's has no colon |
| `Keys.KeyInvertsParse` | crates/sdk/src/ports/repository.rs:182-210 | What is recovered has exactly that key and type |
| `Keys.MisreadExactly` | crates/sdk/src/ports/repository.rs:182-210 | A key is taken for another artifact exactly when the distribution has a colon that is not its first character |
| `Creation.Create` | crates/sdk/src/manager.rs:1439-1701 | Every fallible operation in its order, each with its own terminal event: the observer can follow every trace to its end, the terminal event names the stage of the first operation that failed, and it agrees with what the caller gets; with steady totals every percent is in its band |
| `Creation.ReturnOrReject` | crates/sdk/src/manager.rs:3148-3271 | An existing machine is returned exactly when it is complete, agrees in every field and loads; otherwise validation fails |
| `Creation.Claim` | crates/sdk/src/manager.rs:1540-1657 | The second stage: prerequisites with their ticks, host, volume, clock, record |
| `Creation.CreateClaimed` | crates/sdk/src/manager.rs:3593-3881 | The four claimed stages, each operation with its own event, or the terminal event of the first that fails |
| `Creation.FollowedMeans` | crates/sdk/src/manager.rs:249-308 | One terminal event, the last; completed steps never fall; with every percent in its band, percent never falls when they rise |
| `Creation.BandIsKeptExactly` | crates/sdk/src/manager.rs:236-247 | For every step and every 64-bit total, all ticks stay between the step's sixth and the next if and only if the product with the number of stages fits, or its wrapped rest is large enough, or the cap of 100 is the bound |
| `Creation.FinishedTickFillsItsShare` | crates/sdk/src/manager.rs:236-247 | A finished tick fills its 16 percent exactly when 96 times the total fits 64 bits |
| `Creation.PercentGrows` | crates/sdk/src/manager.rs:236-247 | More bytes never lower the percent |
| `Creation.Observer.Tick` | crates/sdk/src/manager.rs:3397-3407 | One event for each report, with the percent of its bytes, where an empty file counts as one byte |
| `Creation.DividesByZeroExactly` | crates/sdk/src/manager.rs:236-247 | The division is by zero for one 64-bit total only, which is not a signed one |
| `Creation.LargeTotalLeavesTheBand` | crates/sdk/src/manager.rs:3399-3406 | A total just above the limit, at the step that ticks while hashing: 100 percent after one stage of six |
| `Creation.LargerTotalStaysInBand` | crates/sdk/src/manager.rs:3399-3406 | A larger one that stays in band |
| `Boot.EscapeRoundTrips` | crates/cli/src/boot.rs:109-141 | The systemd decoder gives back the normalised home if and only if no component is `.` or `..`, and refuses the name otherwise; `-` is the name of the root directory only |
| `Boot.UnitsAreDistinct` | crates/cli/src/boot.rs:84-86 | Two homes share a unit exactly when they have the same components |
| `Boot.EscapedIsAllowed` | crates/cli/src/boot.rs:109-125 | A name has only characters that systemd allows, and never starts with a dot |
| `Boot.TrimSlashes` | crates/cli/src/boot.rs:127-141 | The components of the path, separated by single slashes |
| `Boot.EscapePath` | crates/cli/src/boot.rs:109-125 | The loop computes the escaped normal form |

## Left out

- `delete_microvm`: it checks only the socket and releases no mapping, so it is outside the lifecycle invariant.
- Rollback of a creation: the network is journalled after a step that can fail, so full restoration is not what the code decides.
- Creation: only its events are modelled, for an observer that is present; percent may fall inside one step.
- Cache: files changed from outside are not modelled.
- LateWrites: a removal that lands late is taken to remove whatever is there, although one of a directory fails on a file.
- Host.Host.WaitForStop: does not promise the silent socket that the port promises too, because nothing proved here needs it.
- Runs.Run: does not promise anything of a call that is dropped while one of its row writes is under way, because such a write may land inside a later call; `Runs.LateRowKeepsTrackExactly` says what its landing does.
- Lifecycle: the locks are assumed; each call is modelled under its locks, and deadlock freedom depends on path validation elsewhere.
- Snapshot: the other payloads, the compression and the manifest of the archive are not modelled.
- Prune: the repository's lists are parameters.
- Executor: the `verified` artifacts and the progress events of the transfers are not modelled.
- Planner: validation of identifiers when the catalog is loaded; the text of errors and labels.
- Restore, the autostart run, prompts, argument parsing, size parsing and formatting, privilege escalation, ssh and listing commands.
- SHA-256, HTTP, SQLite, ext4, Device Mapper, TAR and zstd, network setup and process spawning are behind contracts.

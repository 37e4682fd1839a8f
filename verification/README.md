# host-setup, verified

host-setup converges a machine: bundles register resources in a plan, the executor sorts the
plan into topological levels, runs each level as concurrent tasks, and feeds what changed
forward to the levels after it. This project models that machinery and proves what holds for
every plan, every schedule and every host state. Check it with `dafny verify dfyconfig.toml`.

## How the model is put together

**Plan and levels.** `TopoLevels` is `compute_topo_levels` as the source has it: in-degree and
successor arrays, a queue per level, a decrement per dep occurrence. A graph is the list of deps of
each node, with duplicates, self-loops and out-of-range deps allowed. The references it is proved
against are independent of the algorithm: chains of deps, cycles, longest chains.

**Run.** `Run` is the executor as a transition system. A configuration holds the level, the state of
each task of the level (waiting, running with a local state, finished, joined, failed, cut), the
host, the service manager, the change set and the report. Spawning, stepping, failing, joining and
cutting happen in any order, joining once all are spawned. A step is what a task does between two await points, or less:
`write_all` may stop after any character. An error that is joined ends the run, and tasks still
alive may be cut at any later step, which is what dropping the `JoinSet` does. `Crash` is a failure
from outside (a subprocess that cannot be spawned, a full disk) and may hit any running task at any
time. The fields `records`, `taken` and `past` of a configuration, and `origins` in `PlanBuilder`,
are history that no transition reads. `RunReport`, `RunSchedule`, `RunViews`, `RunModes`,
`RunFailures`, `RunLiveness` and `RunOrder` prove theorems about every such system; they know tasks
only by their step function and by three footprints: the cells a task senses, writes, and makes. A
cell is *made* when a missing directory is created on the way to something else, and two tasks may
make the same one. `RunOrder` compares runs that list the tasks of a level in different orders, as
two processes do that walk the family map in different orders.

**Resources.** `Backends` gives `converge_one` of File, SystemdUnit, Directory, Service, Command,
AptPackage, AbsentAptPackage and Marker, and the two apt batchers, as step machines over a host that
maps cells (a file, a directory, a unit being enabled or active, a package) to values. `BackendRuns`
proves that their footprints are honest, that dry runs have no effect, that a dry run predicts the
apply run, that what a task reports can be read off the host it starts on, and what a finished task
leaves. `TaskEffects` says for each resource, in that resource's own fields, exactly what its task
does to the host cell by cell and which programs it calls; `RunEffects` and `RunCalls` carry that to
whole runs, and `RunSkips` says which resources a run leaves out. The calls that change something
are recorded in `Manager.calls`, which no step reads. `WholePlan` puts the grouping into batch
families and the whole-plan theorems on top. `PlanReport` gives the report of a whole run as a
function of the plan and the host at its start, and `PlanCompletes` says exactly from which hosts a
plan goes through. `UnitReload`, `UnitRerun`, `FilePublish`, `TempExposure`, `DirectoryRace`,
`UserDirectories` and `MarkerTriggers` prove what holds in all reachable configurations, or compare
runs of one level.

**Kernels.** `PlanBuilder` is the memoised bundle builder: for a fixed host and configuration a
bundle body is a program of two instructions, add a resource that refers to ids returned before, or
call another bundle. `LineInFile` and `LineConverge` are the line editor, the string computation and
the steps on the host. `RuleText` and `Iptables` are the firewall renderer, which writes the lines
of the source, the reader of its text, and first-match packet semantics. `AptBatch` compares batches
with converging one package at a time, and `AptTasks` ties it to the batch tasks of a run.
`RenamedPlans` proves that plans which differ in their ids only run alike, and `DispatchRuns` so
follows the order in which bundles are asked for through to the report and the final host.
`MergeTree` and `VarsMerge` are the vars plugin, the former on trees, the latter in place on dict
and list objects.

**Footprint conditions.** Theorems that compare runs name what they need; each condition is about
the plan, not about a run. `LevelsApart`: what a task senses is not written or made by another task
of its level. `LevelsIndependent`: nor do two tasks of a level write the same cell (both may make
the same directory). `Upstream`: what a task senses is not touched by earlier levels. `Downstream`:
nor by later levels, except that a directory may be made that the earlier task itself establishes,
so files may go below managed directories (`FilesFitBelowDirectories`). What a run reports, whether
its tasks are ready and what a dry run foretells need `LevelsApart` and `Upstream`; what a run
leaves needs `LevelsApart` and `Downstream`; that two apply runs end on the same host, or fail
alike, needs `LevelsIndependent`. `PlanExample` shows the conditions met for a directory and a file
below it, and runs that complete and report Yes.

## What the proofs found

- `LineInFile` can settle on some content if and only if its line holds no LF and the pattern finds the
  line again, before an LF (where `lines()` takes one CR off) or as an unfinished last line
  (`CanSettleIff`). Otherwise no content at all is left unchanged by a run (`NeverSettles`), so it
  reports Yes for ever; the append then adds the line again and again (`AppendsForEver`).
- On content without CRs one run is idempotent if and only if the line holds no LF and the pattern finds
  it where that run has put it: as the last line if only an unfinished last line matched, before an LF
  otherwise (`IdempotentIffFoundAgain`). For a line that is not empty and has no CR this comes to a
  pattern that matches the line (`IdempotentIffPatternMatches`). An empty line may be lost: put in the
  place of an unfinished last line, the next run does not see it (`EmptyLineIsLost`).
- On any content, for any line and pattern, `SettlesExactly` says after how many runs nothing changes
  any more. On content with CR LF line ends an edit may take several, because each run takes one CR off
  every line that ends in LF: a line whose stripped forms never match takes one run for each of its CRs
  (`OneRunPerCr`), a match on the way cuts that short, and where nothing matches at first the append
  takes a run of its own. A line with two CRs makes the edit take a second run, a line with one does not
  (`CrsCostRuns`).
- An edit by `LineInFile` replaces the file by a new one: mode and owner of the old file survive exactly
  if they are those of the temp file (`LineEditKeepsAttributesIff`).
- `File` calls chown after chmod, and chown clears setuid, and setgid where the group may execute. A
  file with such a mode and an owner or group does not get its mode when it is written, and reports Yes
  again on the next run; these files, and nothing else, are left to do after a completed run
  (`ResultIsGoalIff`, `RunLeaves`, `SecondRunReports`).
- `File` writes the content to its temp path first and sets the mode afterwards. Meanwhile the content
  stands there with the mode of the temp file, 0644 if it is new, so unless that is the wanted mode it
  is exposed; a crash at that point leaves it so to the end of the run (`ExposedInRunIff`,
  `CrashLeavesExposed`). The files of the iptables bundle, which want 0640, are such files.
- A run that crashes or is cut between the rename of a unit file and `daemon-reload` leaves the unit
  stale, and the next run reports it No: it loads the unit if and only if some other unit needs mending
  (`CutLeavesStale`, `RerunLoadsIff`). A restart whose trigger fired before the cut is not made up for
  either, since a run restarts only for what it changes itself (`RunReports`).
- Markers always report No, so a marker in `restart_on` or `trigger_on` never fires
  (`MarkersNeverTrigger`). The comment at `src/bundles/docker.rs:170-171` expects a change in the nvidia
  bundle to restart docker through its marker; the model follows the code.
- Two nested directories of one level race for the verdict, though not for the result, exactly when the
  outer one wants nothing but what mkdir gives (`NestedDirectoriesConfluent`, `VerdictRaces`). The users
  bundle registers `.local` and `.local/private` of every user in one level (`SecondLevelOf`): for root
  the former is such a race (`RootVerdictRaces`), for all other users nothing is, however many there are
  (`UserDirectoriesConfluent`).
- `_merge` never copies a scalar: where only the right side has one, the result holds the empty value of
  its type (`MergedAtPath`). So `{}` is a right identity, and a left identity only for trees whose
  scalars are empty (`EmptyLeft`); associativity and folding hold regardless. A value whose type has no
  empty value, such as a YAML date, is an error even where the left side has the key, because the
  default is computed first.

## Model

| member | source | states |
|---|---|---|
| TopoLevels.ComputeTopoLevels | src/executor.rs:89-143 | succeeds exactly if every dep is in the plan and the deps are acyclic; then the levels partition the nodes, none is empty, and a node's level is the length of its longest dep chain; the unknown dep named is the first; the node named in a cycle error is the lowest one that leads into a cycle |
| TopoLevels.LinkNode | src/executor.rs:95-107 | enters the edges of one node with duplicates, or stops at its first unknown dep |
| TopoLevels.LinkNodes | src/executor.rs:92-107 | in-degrees count dep occurrences and successor lists are the transposed graph, unless a dep is unknown |
| TopoLevels.ExpandNode | src/executor.rs:115-123 | the in-degree of every node stays the number of its dep occurrences not yet expanded, so the decrement never underflows, and a node is queued exactly when it reaches zero |
| TopoLevels.ExpandLevel | src/executor.rs:113-126 | the next queue is exactly the nodes that became free, each once |
| TopoLevels.FirstStuck | src/executor.rs:129-136 | the lowest node that still waits |
| TopoLevels.LeftOverReachesCycle | src/executor.rs:128-140 | when the queue runs dry the nodes left over are exactly those that lead into a cycle |
| TopoLevels.DeepReachesCycle | src/executor.rs:128-140 | a dep chain longer than the plan runs into a cycle (pigeonhole) |
| TopoLevels.NextLevel | src/executor.rs:113-126 | expanding the queue finishes exactly the nodes whose longest chain has the level's length |
| TopoLevels.QueueEmpty | src/executor.rs:113-142 | with an empty queue, all nodes are visited if and only if the deps are acyclic |
| WholePlan.CollectFamilies | src/executor.rs:152-169 | set aside is exactly what asks to be skipped in a container when this is one; the rest is grouped by batch family in level order |
| WholePlan.SpawnFamily | src/executor.rs:184-194 | one task for a family with a batcher, one per resource otherwise, nothing lost |
| WholePlan.GroupLevel | src/executor.rs:145-195 | whatever the iteration order of the family map, skipped resources and tasks together are the level, each id once, and every task is a lone resource or the whole share of its family |
| RunSkips.TasksAreByKind | src/executor.rs:152-195 | two resources of a level share a task if and only if both are packages to install or both are packages to remove |
| RunSkips.SkippedIffInContainer | src/resource.rs:51-55 | in every reachable configuration of every run an outcome is Skipped if and only if its resource asks to be skipped in a container and this is one |
| RunSkips.NeverIsConverged | src/resource.rs:51-55 | a completed run reports Yes or No for each resource that never asks to be skipped, and outside a container it skips nothing |
| WholePlan.Prepare | src/executor.rs:59-70 | a plan gets levels exactly if its deps are known and acyclic; then no level is empty, they partition the plan by the length of the longest dep chain, and each is grouped |
| RunReport.InvAlways | src/executor.rs:63-76 | in every reachable configuration the report holds each finished level's outcomes, and the change set holds exactly the ids those levels reported Yes |
| RunReport.ReportConserved | src/executor.rs:145-247 | a completed run reports every resource of the plan exactly once, with its own hint, and the three counts add up to the plan's length |
| RunReport.CountIsPositions | src/executor.rs:22-24 | a count is the number of positions in the report that hold the outcome asked for |
| RunReport.CountsAddUp | src/executor.rs:22-24 | Yes, No and Skipped counts add up to the number of outcomes |
| RunReport.SegmentIds | src/executor.rs:69-75 | the stretch of the report that a finished level takes up lists that level's ids, each once |
| RunReport.TriggersReadEarlierLevels | src/env.rs:87-96 | the answer of `any_changed` is fixed for the whole level and is true exactly if one of the ids was reported Yes by a strictly earlier level |
| RunReport.TriggersMatchFinalReport | src/env.rs:93-96 | if all trigger ids are transitive deps, that answer is the one read off the final report |
| RunReport.LevelsAreLayered | src/executor.rs:89-143 | every dep of a node lies in a strictly earlier level |
| RunReport.DepsFinishFirst | src/executor.rs:63-76 | in every reachable configuration, also after errors, a started resource has every transitive dep in the report |
| RunReport.AbortedIffErrorJoined | src/executor.rs:197-202 | in every reachable configuration a run is aborted if and only if it has joined a task that failed |
| RunReport.AllAreStarted | src/executor.rs:184-204 | an error keeps no other task of its level from starting: all are started before anything is joined |
| RunReport.AbortIsFinal | src/executor.rs:197-202 | after an error is joined nothing new starts, nothing more is reported, no later level is entered |
| WholePlan.GroupingsReorder | src/executor.rs:152-195 | any two walks of the family map give the same tasks of a level, in another order |
| RunOrder.RunRenamed | src/executor.rs:171-204 | a run over one task order is a run over any other with its tasks renamed: same host, service manager, change set and report |
| RunOrder.ScheduleIndependence | src/executor.rs:152-204 | with independent levels, any two completed runs from the same host, whatever their schedules and task orders, end in the same host and change set, and level by level report the same outcomes in some order |
| WholePlan.PlanRunsAgree | src/executor.rs:59-87 | the same for every plan of these resources, each run with its own grouping |
| RunSchedule.MergeAlways | src/executor.rs:171-204 | at every point of every run the host is the level's starting host with what each task would have done alone laid over it |
| RunSchedule.NowMergedStep | src/executor.rs:186-192 | a step among the others does what the same step does alone |
| RunOrder.FailuresAreNotScheduled | src/executor.rs:197-204 | if some run completes, no crash-free run from the same host fails, whatever the schedules and task orders |
| RunOrder.DryRunDoesNotFail | src/executor.rs:59-87 | if some apply run completes, no crash-free dry run from the same host fails, whatever the schedules and task orders |
| RunFailures.ScheduleIsFree | src/executor.rs:171-204 | at every point of every run any waiting task may be spawned, any running one may take its next step or crash, once all are spawned any that has ended may be joined, and after an error any that is alive may be cut |
| RunFailures.NeverStuck | src/executor.rs:171-204 | until a run is completed or aborted, some action other than a crash is enabled |
| RunLiveness.LevelCanAlwaysFinish | src/executor.rs:171-204 | from any crash-free point of a level whose tasks can finish alone, the level can be finished |
| RunLiveness.ActionMakesProgress | src/executor.rs:171-204 | every enabled action within a level except a crash leaves less to do, so no crash-free schedule goes on for ever |
| RunOrder.EveryRunCanComplete | src/executor.rs:59-87 | if some run completes, every crash-free run from the same host, in any task order, can still be completed from wherever it is |
| RunModes.DryRunChangesNothing | src/executor.rs:59-87 | in every reachable configuration of a dry run, host and service manager are as they were |
| RunViews.ViewsAlways | src/executor.rs:171-204 | in every run, a task whose senses no other task of its level touches is in the state, and sees what, it would alone; cells nobody writes are as they were or freshly made |
| RunOrder.DryRunFidelity | src/executor.rs:59-87 | a completed dry run and a completed apply run, whatever their schedules and task orders, report the same outcomes level by level, if nothing a task senses is touched in its level or upstream |
| RunModes.OutcomesAreForeseen | src/executor.rs:63-76 | in every reachable configuration, each outcome of a finished level is the one foreseen from the host the run started on and what that run reported changed in earlier levels |
| BackendRuns.SystemIsFramed | src/backends/file.rs:51-149 | a step of any resource depends only on what it is said to sense and changes only what it is said to write or make |
| BackendRuns.DryRunIsPure | src/backends/directory.rs:73-82 | no step of a dry run changes anything |
| BackendRuns.DryRunPredicts | src/backends/service.rs:52-69 | what an apply run reports for a task, a dry run from the same host and change set reports too |
| BackendRuns.FileProgresses | src/backends/file.rs:92-149 | each step of a file towards its goal keeps what the steps before have reached |
| BackendRuns.DirectoryProgresses | src/backends/directory.rs:84-99 | a finished directory exists with the wanted mode and owner |
| BackendRuns.ServiceProgresses | src/backends/service.rs:71-79 | a finished service is enabled and active where that is wanted |
| BackendRuns.InstallProgresses | src/backends/apt_package.rs:67-111 | a finished install batch leaves every named package installed |
| BackendRuns.RemoveProgresses | src/backends/absent_apt_package.rs:65-113 | a finished removal batch leaves none of the named packages installed |
| BackendRuns.FinishedMeansGoal | src/backends/file.rs:51-149 | a task that finishes has reached the goal of its resource: a file that reports No is as wanted, one that reports Yes has the content, the owner, and the mode that chmod and then chown leave |
| BackendRuns.ResultIsGoalIff | src/backends/file.rs:122-135 | what a written file comes to is what was wanted if and only if no bit of the wanted mode is one that the chown clears |
| BackendRuns.VerdictsAreForetold | src/backends/service.rs:41-80 | whatever a task reports, in an apply run or a dry run, follows from the host and change set it starts with: Yes exactly for what is not as wanted or is triggered |
| TaskEffects.NeedsWorkInFields | src/backends/file.rs:63-78 | what a converge sets out to mend, in the fields of each resource: content, mode, owner and group; enabled and active; installed or not |
| TaskEffects.FileStages | src/backends/file.rs:51-149 | each step of a file's task leaves exactly the target, the temp file, the parents and every other cell that are due by then; at the end the file has the content, the attributes wanted, and where none is wanted those it had, or those of the temp file |
| TaskEffects.DirStages | src/backends/directory.rs:45-100 | the same for a directory: mode, owner and group wanted, the old ones or those of a new directory where none is wanted, its parents made if it was missing, nothing else touched |
| TaskEffects.ServiceStages | src/backends/service.rs:48-80 | a service is enabled, started or restarted exactly when its fields, the host and the change set say so, with exactly these calls, a restart instead of a start where it runs already |
| TaskEffects.CommandStages | src/backends/command.rs:46-85 | a command runs exactly if it has no `trigger_on` or one of its ids has changed; its outputs become what the program makes of its inputs, and no other cell changes |
| TaskEffects.InstallStages | src/backends/apt_package.rs:67-111 | one update and one install of what is missing, which with what it pulls in is there afterwards; no other cell changes |
| TaskEffects.RemoveStages | src/backends/absent_apt_package.rs:65-113 | one removal of what is there, which with what goes along is gone afterwards; no other cell changes |
| TaskEffects.TaskHasDone | src/executor.rs:206-247 | any task of an apply run that finishes on its own has reported, left and called exactly what its resources say; a unit that is written is loaded |
| RunEffects.CellsStay | src/executor.rs:171-204 | at every later point of a run, the cells that nobody else touches from a task's level on are as that task on its own leaves them |
| RunEffects.ResourceIsLeft | src/executor.rs:59-87 | what a completed apply run leaves of each resource, and reports for it, in the fields of the resource and read off the host at the start: files and units with their content, mode, owner and group, directories, services, packages |
| RunEffects.CommandInRun | src/backends/command.rs:66-85 | in every reachable configuration, a command that reported Yes has made of its outputs what its program makes of its inputs, and one that reported No has changed nothing |
| RunEffects.CommandSeesStart | src/backends/command.rs:66-85 | those inputs are as they were at the start of the run, if no earlier level touches them |
| RunCalls.CallsAreForetold | src/executor.rs:59-87 | whatever the schedule, a completed apply run calls exactly what plan and starting host foretell, each as often: `systemctl`, `apt-get` and the commands |
| RunCalls.ServiceIsCalledFor | src/backends/service.rs:52-79 | a completed apply run restarts a service once if it is to run, was running, and an id it lists changed in an earlier level, starts it once if it was not running, enables it once if that is due, and otherwise does none of these |
| RunCalls.RunningSince | src/backends/service.rs:74-78 | in every reachable configuration a unit runs with the definition that was loaded when the run last started or restarted it, or, if it did not, with what it ran with before |
| WholePlan.DryRunForetells | src/executor.rs:59-87 | for every plan of these resources: the dry run leaves the host alone and foretells outcomes and change set of the apply run, triggered commands and restarts included, though the two walk the families in different orders |
| WholePlan.DryRunOfAppliedPlanNeverFails | src/executor.rs:59-87 | a plan that can be applied from a host can be dry run from it |
| WholePlan.PlanReportConserved | src/executor.rs:145-247 | a completed run of a prepared plan reports each of its resources exactly once, with its own hint, and the three counts add up |
| WholePlan.PlanDepsFinishFirst | src/executor.rs:63-76 | in every reachable configuration of a prepared plan, a started resource has every transitive dep in the report |
| WholePlan.PlanTriggersMatchFinalReport | src/env.rs:93-96 | for a resource whose triggers are transitive deps, what it is told in its level is what the final report says |
| PlanReport.RunReports | src/executor.rs:63-76 | what a run reports, dry or not, is a function of plan and starting host: Skipped for what is skipped, Yes exactly for commands without `trigger_on`, what is not as wanted at the start, and what reaches these through triggers that point to strictly earlier levels, No for the rest |
| PlanReport.ChangedIsForetold | src/env.rs:87-96 | so in every reachable configuration the change set a level starts with is read off plan and starting host too: exactly what acts in the levels before it |
| PlanReport.RunLeaves | src/backends/file.rs:122-135 | after a completed apply run, from whatever host, exactly those files are not as wanted that the run reported Yes and whose wanted mode chown undoes |
| PlanReport.SecondRunReports | src/executor.rs:63-76 | a second run over what a completed one left reports Yes exactly for those files, commands without `trigger_on`, and what reaches these through triggers, whatever the task orders |
| PlanCompletes.FinishesIffReady | src/backends/file.rs:51-149 | a task on its own finishes if and only if it finds its host ready: nothing of the wrong kind at its path, its temp path or above, a command with arguments that exits zero if it is due |
| PlanCompletes.ReadyInFields | src/backends/file.rs:152-178 | what ready means at the start, in the fields of the resource: no directory at the path, nor at the temp path if it is needed, no file above; for a directory no file at its path; for a command a program, which exits zero if it is to run |
| PlanCompletes.ReadyPlanCompletes | src/executor.rs:59-87 | from a host on which each task is ready, given the change set foretold for its level, no crash-free run fails, and each can be completed from wherever it is |
| PlanCompletes.CompletedWasReady | src/executor.rs:59-87 | whatever level a run got through, crashes elsewhere or not, its tasks were ready on the host at the start |
| PlanCompletes.CompletesIffReady | src/executor.rs:59-87 | some run of a plan completes, in an apply run or a dry run, if and only if each task is ready on the starting host, given what acts in the levels before it; a triggered command that would fail does no harm if it never fires |
| RenamedPlans.RenamedPlansReportAlike | src/executor.rs:59-87 | runs of two plans that differ in their ids only, over the same host, report the same for every resource, in the same level; the footprint conditions are asked of one of them |
| RenamedPlans.RenamedFootprints | src/executor.rs:145-195 | each footprint condition that holds of a plan holds of every plan that differs from it in ids only, whatever the task orders |
| RenamedPlans.RenamedPlansLeaveAlike | src/executor.rs:59-87 | completed runs of two such plans from the same host end on the same host, if the levels of the one are independent |
| DispatchRuns.AskedPlanMeans | src/bundles.rs:203-210 | each node of the plan that runs has the hint, the skip condition and the resource of an add instruction, and its deps and triggers lead, in order, to the nodes of the instructions this one refers to |
| DispatchRuns.DispatchRunsAlike | src/README.md:224-226 | asking for the same bundles in any two orders gives plans whose runs over the same host report the same for every resource, and whose completed runs leave the same host if the levels are independent |
| WholePlan.FilesFitBelowDirectories | src/backends/file.rs:164-178 | creating the parents of a file leaves alone what an earlier directory resource senses |
| PlanExample.TwoStepsAreSeparate | src/backends/file.rs:164-178 | the footprint conditions hold of a directory and a later file below it |
| PlanExample.TwoStepsRun | src/executor.rs:59-87 | from every host where nothing stands in the way a run of that plan can be completed, and it reports Yes for exactly what was not as wanted |
| PlanExample.TwoStepsRunAgain | src/executor.rs:59-87 | any completed run after a completed run reports No for both, a file whose mode chown undoes apart |
| MarkerTriggers.MarkersNeverTrigger | src/backends/marker.rs:36-38 | dropping markers from a trigger list changes no answer in any run |
| UnitReload.NeverStale | src/backends/systemd_unit.rs:46-60 | a managed unit file differs from its loaded definition only while its task is about to reload |
| UnitReload.NoStaleUnits | src/backends/systemd_unit.rs:53-57 | whenever a service is started or restarted, the loaded definition of every unit among its transitive deps that was in step before the run is the one on disk |
| UnitRerun.CutLeavesStale | src/backends/systemd_unit.rs:46-60 | a crash or a cut between rename and reload leaves the unit as wanted on disk but not loaded |
| UnitRerun.RerunLoadsIff | src/backends/systemd_unit.rs:46-60 | a completed run over such a host loads that unit if and only if some other unit of the plan needs mending |
| FilePublish.FilesArePublishedAtomically | src/backends/file.rs:118-148 | at every point of every run, crashes and cuts included, the target holds its old content, or the new content with the wanted owner and the wanted mode or what chown leaves of it |
| FilePublish.AttainableFilesAreWhole | src/backends/file.rs:118-148 | so a file whose mode the chown leaves alone is, at every point of every run, as it was before the run or entirely as wanted |
| TempExposure.ExposedIff | src/backends/file.rs:118-137 | in each state of a file's task, exactly when content stands at the temp path with another mode than the wanted one: from the first character to the chmod, if that is not the mode the temp file had to begin with; from the chown to the rename, if the chown takes wanted bits away |
| TempExposure.ExposedInRunIff | src/backends/file.rs:118-127 | the same in every run: while the content is written and until the chmod it is exposed if and only if the wanted mode is not that of a new file, or of the temp file left over from before |
| TempExposure.CrashLeavesExposed | src/backends/file.rs:118-127 | whether content is exposed when its task crashes is whether it is at any later point of that run, which never completes |
| FilePublish.DistinctFilesDoNotCollide | src/backends/file.rs:180-184 | two file resources keep off each other's target and temp file exactly if the paths differ and neither is the other's temp path |
| DirectoryRace.NestedDirectoriesConfluent | src/backends/directory.rs:55-99 | however a level with nested directories, files and units interleaves, the same directories exist at the end with the same owners and modes: managed ones, those above them, those there before, and those above files nobody else disturbs; verdicts agree where the directory was there or what is wanted differs from what mkdir gives |
| UserDirectories.VerdictRaces | src/backends/directory.rs:55-99 | where the outer of two missing directories wants only what mkdir gives, one completed run reports it Yes and another from the same host No |
| UserDirectories.UserDirectoriesConfluent | src/bundles/users.rs:36-144 | for every list of users, any two runs that enter the level of all their directories and mount units alike and get through it leave the same directories; the verdicts of all units agree, those of all directories of users other than root, and that of the private directory of root |
| UserDirectories.RootVerdictRaces | src/bundles/users.rs:76-96 | for root, `.local` next to `.local/private` is reported Yes in one completed run and No in another |
| UserDirectories.BundleHasLevels | src/bundles/users.rs:36-144 | the plan the bundle registers is never rejected |
| UserDirectories.SecondLevelOf | src/bundles/users.rs:36-144 | in that plan the second level holds exactly the directories and mount units of all users, the closing marker at most besides |
| UserDirectories.ReadyIsLast | src/bundles/users.rs:140-144 | the closing marker comes in a later level than everything else the bundle registers |
| UserDirectories.UnitsAreSkippedInContainers | src/bundles/users.rs:111-137 | in a container every run skips exactly the mount units and their services, elsewhere nothing of the bundle |
| DirectoryRace.DirsAlways | src/backends/directory.rs:84-99 | throughout a level directories only appear, one at a time and from the top down, and each is as it was, fresh, or partly adjusted by its own task, whatever files and units are made next to them |
| PlanBuilder.Context.Add | src/plan.rs:22-29 | appends one node and returns its index |
| PlanBuilder.Context.Memoized | src/bundles.rs:203-210 | returns the cached id, or builds the bundle and caches the id, changing plan and cache as the specification says |
| PlanBuilder.Context.Build | src/bundles.rs:207-207 | running a body leaves plan, cache and returned id of the specification |
| PlanBuilder.MemoKeepsGood | src/bundles.rs:203-210 | after any call every node comes from a different instruction, refers to what that instruction says, and every cached bundle is complete |
| PlanBuilder.DispatchIsOrderIndependent | src/README.md:224-226 | asking for the same bundles in any order, with repetitions, gives plans that differ by a one-to-one renaming of ids that keeps resources, deps, triggers and the id of each bundle |
| PlanBuilder.BuiltAtMostOnce | src/README.md:222-223 | each add instruction has exactly one node in the plan if its bundle is built, none otherwise |
| PlanBuilder.BuiltPlansHaveLevels | src/plan.rs:22-29 | every dep is smaller than its owner's id, so no plan from bundles is rejected |
| LineInFile.ComputeNewContent | src/backends/line_in_file.rs:86-113 | the string loop computes the new content |
| LineInFile.EditIsNewContent | src/backends/line_in_file.rs:86-113 | the new content is the edit on raw lines: matching lines replaced, one CR dropped from every other line that ends in LF, or one line added |
| LineInFile.LinesAreKept | src/backends/line_in_file.rs:91-112 | for every line: with a match a run writes every line as `lines()` yields it, in order, the matching ones replaced, and ends in LF exactly where the content did; without one it keeps the content, completes its last line and adds the line |
| LineInFile.LinesAreReadBack | src/backends/line_in_file.rs:88-112 | and these are the raw lines read back from the new content if the line holds no LF, an empty last line apart |
| LineInFile.SettlesExactly | src/backends/line_in_file.rs:86-113 | for every content, pattern and line: a further run changes nothing after n runs if and only if the line has no LF, its pattern finds it where these runs have put it, and no line of the content needs more than n runs, one of which goes to the append where nothing matched |
| LineInFile.OneRunPerCr | src/backends/line_in_file.rs:88-99 | a line needs as many runs as it has CRs before its end if no stripped form of it matches, and at most one more otherwise |
| LineInFile.CrsCostRuns | src/backends/line_in_file.rs:86-113 | a content of two lines with one CR each is settled by one run where the wanted line is among them; if the other line has two CRs the second run still changes it, and the third does not |
| LineInFile.SettlesAfterCrs | src/backends/line_in_file.rs:86-113 | for a line whose pattern finds it before an LF, a fixed point after at most 1 + k runs, k the longest run of CRs before a line end, or two if the first run loses the match; there something matches, and only the line itself does |
| LineInFile.NeverSettles | src/backends/line_in_file.rs:86-113 | a line with an LF, or one its pattern finds neither before an LF nor as an unfinished last line: every run changes every content |
| LineInFile.CanSettleIff | src/backends/line_in_file.rs:86-113 | and for every other line there is content that a run leaves as it is: an edit can settle if and only if the line has no LF and is found again |
| LineInFile.SettledIsWanted | src/backends/line_in_file.rs:86-113 | content that a run leaves as it is holds a match, and nothing in it matches but the line itself |
| LineInFile.IdempotentIffFoundAgain | src/backends/line_in_file.rs:86-113 | for every line and every content without CR, one run is idempotent if and only if the line has no LF and its pattern finds it where that run has put it |
| LineInFile.IdempotentIffPatternMatches | src/backends/line_in_file.rs:86-113 | for a line that is not empty and has no CR that comes to: no LF in it, and a pattern that matches it |
| LineInFile.EmptyLineIsLost | src/backends/line_in_file.rs:93-103 | an empty line that its pattern matches, put in the place of an unfinished last line, is not found again and appended |
| LineInFile.AppendsForEver | src/backends/line_in_file.rs:104-111 | the failing case in the concrete: from no content, a line its pattern does not find before an LF is appended by the first run and again by the second |
| LineInFile.ParseUnparse | src/backends/line_in_file.rs:88-90 | splitting a text into raw lines and joining them gives the text back |
| LineConverge.LineEditIsAtomic | src/backends/line_in_file.rs:46-83 | at every step the target is whole, old or new; only target and temp file are touched; Yes is reported exactly if the content changes; a dry run changes nothing; the new file has the attributes of the temp file |
| LineConverge.LineEditKeepsAttributesIff | src/backends/line_in_file.rs:66-82 | mode and owner of the edited file are kept if and only if they are those the temp file has |
| LineConverge.LineEditRefuses | src/backends/line_in_file.rs:47-53 | a missing file or a bad pattern is an error that changes nothing |
| LineConverge.LineEditFinishesIff | src/backends/line_in_file.rs:46-83 | an edit on its own gets through if and only if the file is there, its pattern compiles, and no directory is at its path nor, where it has to write, at its temp path |
| LineConverge.LineEditAgain | src/backends/line_in_file.rs:55-82 | dry run and apply run report the same; a second run reports No exactly at a fixed point of the edit |
| Iptables.RenderRemote | src/bundles/iptables.rs:128-148 | the loop writes one line for each port, in order, and these are the rules of the chain |
| Iptables.RenderLocalV4 | src/bundles/iptables.rs:82-104 | the fold writes three lines for each port, one for each private range, in order, and these are the rules of the chain |
| Iptables.RenderLocalV6 | src/bundles/iptables.rs:106-126 | the same for v6, two lines for each port |
| Iptables.RenderInputV4 | src/bundles/iptables.rs:179-189 | the lines written for the v4 input rules are the text of the chain's rules |
| Iptables.RenderInputV6 | src/bundles/iptables.rs:244-264 | the lines written for the v6 input rules are the text of the chain's rules, a blank line after the port rules |
| Iptables.LineText | src/bundles/iptables.rs:179-189 | every rule is a line that appends it to the chain NF_PERSIST_INPUT |
| Iptables.PortLine | src/bundles/iptables.rs:82-148 | the exact text of a port rule, from a source if one is given |
| Iptables.HeadTextV4 | src/bundles/iptables.rs:179-183 | the exact lines before the port rules in v4 |
| Iptables.TailTextV4 | src/bundles/iptables.rs:184-189 | the exact lines after them |
| Iptables.HeadTextV6 | src/bundles/iptables.rs:244-258 | the exact lines before the port rules in v6 |
| Iptables.IfacesText | src/bundles/iptables.rs:260-264 | the exact lines for the bridges and the drop at the end |
| Iptables.RangeTexts | src/bundles/iptables.rs:86-88 | the exact text of the five local ranges and the two loopback ranges |
| Iptables.TextRoundTrip | src/bundles/iptables.rs:179-189 | reading rendered rules gives the rules back, in order |
| Iptables.FirewallIsPolicy | src/bundles/iptables.rs:150-286 | for all port lists and every packet, first match over the rules read from the rendered text decides as the policy says |
| Iptables.ListedPortsAreOpen | src/bundles/iptables.rs:150-286 | a new TCP or UDP packet on an ordinary interface is accepted exactly if its port is listed as remote, or as local and its source is private |
| Iptables.OrderOfPortsIsIrrelevant | src/bundles/iptables.rs:82-148 | reordering or repeating ports changes no verdict |
| Iptables.PortListsAreRecovered | src/bundles/iptables.rs:82-148 | reading the text gives back every port list, in order and with repetitions, for each protocol and range |
| Iptables.Lans | src/bundles/iptables.rs:86-88 | the three v4 prefixes are the intervals of section 3 of RFC 1918 |
| Iptables.RangesV6 | src/bundles/iptables.rs:110-111 | the two v6 prefixes are the intervals of section 3.1 of RFC 4193 (L bit set) and section 2.5.6 of RFC 4291 |
| AptBatch.AptHost.ConvergeOne | src/backends/apt_package.rs:43-55 | installs a missing package, updating first, unless it is a dry run |
| AptBatch.AptHost.ConvergeBatch | src/backends/apt_package.rs:67-111 | installs what is missing in one go with at most one update, and reports Yes for what was missing |
| AptBatch.AptHost.ConvergeInTurn | src/backends/apt_package.rs:43-55 | converging one by one installs and reports as the specification says |
| AptBatch.AptHost.RemoveOne | src/backends/absent_apt_package.rs:42-53 | removes a package that is there, unless it is a dry run |
| AptBatch.AptHost.RemoveBatch | src/backends/absent_apt_package.rs:65-113 | removes what is there in one go and reports Yes for it |
| AptBatch.AptHost.RemoveInTurn | src/backends/absent_apt_package.rs:42-53 | removing one by one removes and reports as the specification says |
| AptBatch.SameInstalled | src/backends/apt_package.rs:67-111 | whatever the order, one by one installs exactly what the batch installs |
| AptBatch.OrderDoesNotMatter | src/backends/apt_package.rs:43-55 | any two orders of the same names install the same packages |
| AptBatch.VerdictInTurn | src/backends/apt_package.rs:43-55 | one by one, a package is reported Yes exactly if it was missing and no earlier missing package pulled it in |
| AptBatch.BatchVerdicts | src/backends/apt_package.rs:101-110 | a Yes one by one is a Yes of the batch, and all verdicts agree if and only if no missing package of the list pulls in a later missing one |
| AptBatch.SecondBatchIsNo | src/backends/apt_package.rs:85-110 | after a batch a second one finds everything installed |
| AptTasks.BatchIsInTurn | src/backends/apt_package.rs:67-111 | a batch task of a run leaves installed what converging its packages one by one would have, and a removal task takes away what one by one would have |
| AptBatch.SameRemoved | src/backends/absent_apt_package.rs:65-113 | whatever the order, one by one removes exactly what the batch removes |
| AptBatch.BatchRemovalVerdicts | src/backends/absent_apt_package.rs:103-112 | the removal verdicts agree if and only if no present package of the list takes a later present one with it |
| MergeTree.TypesByName | plugins/action/include_vars_merged.py:44-44 | two values are of the same type if and only if their Python types have the same name |
| MergeTree.MergeSucceedsIffTypesAgree | plugins/action/include_vars_merged.py:41-47 | the merge succeeds if and only if the types agree at every path both sides have and the right side has no value without an empty value of its type |
| MergeTree.MergedAtPath | plugins/action/include_vars_merged.py:40-53 | the merged tree path by path: keys of both sides, lists left then right, scalars of the left kept, scalars of the right emptied |
| MergeTree.MergeIsAssociative | plugins/action/include_vars_merged.py:40-53 | merging is associative, errors included, for all trees |
| MergeTree.EmptyRight | plugins/action/include_vars_merged.py:40-53 | merging `{}` in changes nothing |
| MergeTree.EmptyLeft | plugins/action/include_vars_merged.py:40-53 | merging into `{}` gives the right side if and only if all its scalars are empty values |
| MergeTree.FoldIsMergeOfSplit | plugins/action/include_vars_merged.py:30-38 | folding files one by one is merging the folds of any split of them, errors included |
| VarsMerge.MakeDefault | plugins/action/include_vars_merged.py:42-42 | a new empty value of the right's type that shares nothing |
| VarsMerge.SetDefault | plugins/action/include_vars_merged.py:42-42 | after it the key holds what it held, or a new empty value; fails exactly for types without one |
| VarsMerge.ExtendAt | plugins/action/include_vars_merged.py:49-50 | the list at the key grows by the right list, in place, and nothing else changes |
| VarsMerge.MergeAt | plugins/action/include_vars_merged.py:52-53 | the dict at the key becomes the merged dict, in place, and nothing else changes |
| VarsMerge.MergeKey | plugins/action/include_vars_merged.py:41-53 | one turn of the loop: fails exactly if the key does not fit, else only that key changes |
| VarsMerge.Merge | plugins/action/include_vars_merged.py:40-53 | in place, the keys in any order: an error exactly if the trees do not fit, otherwise `left` reads as the merged tree; the right side, which may share containers between its keys, is unchanged and no container of it ends up in `left` |
| VarsMerge.LoadFiles | plugins/action/include_vars_merged.py:30-38 | the result is a new dict that reads as all existing files merged in order, and shares no container at merged paths with what was loaded, anchors in a file or not |
| VarsMerge.ValidIsReadable | plugins/action/include_vars_merged.py:37-38 | every tree can be merged in, so what is asked of the right side allows every file without anchors |
| VarsMerge.Anchored | plugins/action/include_vars_merged.py:37-38 | a dict with one list at two keys, as an anchor makes it, can be merged in though it is no tree |

## Left out

- Subprocesses, the real file system, HTTP and the decoding of their output: they are the abstract host, and any of them failing is the action `Crash`. That includes the owner and group lookups; a resource carries the uid and gid they found.
- The Tokio runtime, `RwLock` and `Arc`: tasks are step sequences, the change set is a set that grows when a level ends, as `record_changed` is only called there.
- Symlink, AbsentFile, AptRepo, User and Download: their `converge_one` is not modelled; the theorems of `Run`, `RunReport`, `RunSchedule`, `RunViews`, `RunModes`, `RunFailures`, `RunLiveness` and `RunOrder` cover any resource given as steps with footprints. The batch families without a registered batcher run one by one, as in the source.
- LineInFile as a resource inside a whole plan: `LineConverge` treats it alone on a host.
- A Command's program is a function of the cells it declares as inputs and changes only cells it declares as outputs; real commands declare neither.
- A started or restarted unit becomes active, and an enabled one enabled: a `systemctl` that exits zero without that effect is not modelled.
- Apt: what a package pulls in or takes along is a fixed function, closed under itself for the batch theorems; conflicts between packages and what `apt-get update` changes about availability are not modelled.
- Files: modes are their low twelve bits, a chown of a file clears setuid and group-executable setgid as Linux does, the process is uid 0 with umask 0022, symbolic links and paths that name the same file in two ways are not modelled, and content is a string, so undecodable bytes are not.
- What `Directory` and `File` do to the mode bits of a path that is replaced by something else while they run, by a process outside the plan.
- The regular expression engine: a pattern is an arbitrary predicate on lines, or does not compile.
- FirewallIsPolicy: the mangle, nat and forward chains and the jump from INPUT are constant text outside the model; connection state, ICMP type and hop limit are fields of the packet; the reader covers the options the input chains use and address texts of the forms they use.
- The six render helpers of the firewall are three methods with the protocol as parameter.
- DispatchIsOrderIndependent: bundle bodies are programs for one host and configuration, and the call graph is acyclic (a cycle would not terminate in the source either).
- CallsAreForetold: calls that only look (`is-enabled`, `is-active`, `dpkg-query`, `getent`) are not recorded, nor are fixed arguments such as `-y`.
- ServiceIsCalledFor: no other service of the plan has the same name; `CallsAreForetold` does without that.
- CommandInRun: for cells that no other task touches from the command's level on.
- SecondRunReports: under the footprint conditions; the first run completes, the second need not.
- CompletesIffReady: under the footprint conditions; what makes a task ready is stated for the resources modelled here.
- UserDirectoriesConfluent: the account that an earlier level creates is converged by some program and is otherwise part of the host. Names are words of a path and homes are distinct, as far as users have one; a home whose path begins with `/etc/systemd/system/` is excluded, since its directories could then lie where unit files do.
- DirsAlways: a directory made below a setgid directory inherits its group and that bit, which the model does not follow; a new one is owned by root with mode 0755.
- NestedDirectoriesConfluent: for levels whose directory paths are distinct, and where no command or other task writes a directory. A directory that only the parents of a contested file call for, one whose target another task of the level writes, is left open.
- VarsMerge.Merge: the dict merged into is a tree, as every result of the plugin is; the right side may share containers but no container holds itself (YAML can say so; the source then recurses without end). List elements are values that the merge copies by reference and never looks into, as in the source. The state a failed merge leaves behind is only known to be well formed.
- Literal bundle contents, configuration loading, command line, host probing, diffs and logging, error texts, and the Ansible roles: data and plumbing.

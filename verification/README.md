# xpressclaw core: a verified model

This project models the hardest state machines of the `xpressclaw-core` crate in Dafny and proves
what they keep: the consolidation of legacy Projects, an Agent's repository selection with its two
bounded traversals, Project moves and two-phase Project deletion, and the Control-center telemetry.
`dafny verify dfyconfig.toml` checks everything.

## How it is organised

- `Connectivity`, `TextOrder`, `Options`, `ProjectMemory`: undirected reachability, text order, nullable
  columns, the re-owning of memory notes.
- `LegacyComponents`: the array union-find. `Consolidation` says what consolidating a database means
  at the level of Agents, Conversations and Tasks, `ConsolidationOutcome` says it row by row;
  `ConsolidationMigration` holds the migration's own loops and proves that they compute it.
- `RepositorySelection`: the stored row, the inspection and the manager object;
  `RepositoryTransitions`: each operation in terms of row, sessions and repositories;
  `RepositorySelectionRuns`: every run of manager operations against a changing workspace.
  `RepositoryDiscovery`, `GitConfigWalk`: the breadth-first scan and the include walk;
  `AutomaticAdoption` joins discovery and selection.
- `ProjectTables`, `AgentMoves`, `ProjectDeletion`, `ProjectRows`, `GuardedAttachments`,
  `ProjectManagement`: the ownership tables, the guards of an Agent move, the two phases of deletion,
  what each leaves row by row, the guarded creation of Tasks, turns and runs, the manager object and
  sequences of all these transactions.
- `ActivitySeries`, `MetricSamples`, `GitBaselines`, `EventLog`, `EventRetention`: charted activity, sample
  placement, baselines that share a workspace, the event log and what its retention removes.

Tables are maps (or sequences, where row order is the point), nullable columns are options, SQL's
`IS NOT` is option inequality, and a transaction is one step. Objects the source updates in place are
classes; each method is proved against a function of the old state, and the lemmas are about that
function. Text ids are strings; only the consolidation and the sorted listings use their order.

## Results worth knowing

- The three structural guards of an Agent move are exact: with no dangling links the bulk update
  keeps the Project boundary if and only if all three let it pass (`AgentMoves.GuardsAreExact`).
- The Git-config walk decides a property of the include graph that does not mention the walk
  (`GitConfigWalk.HasSelfContainedConfig`), cycles included.
- One boundary settles an unchanged workspace, except exactly when it dropped a vanished proposal that
  had hidden an adoption (`RepositorySelectionRuns.OneBoundarySettles`).
- Adjacent activity windows do not always add up: under a Project filter, a work last counted in another
  Project has no seed, and its earlier lines are charted again (`ActivitySeries.MovedWorkIsChartedTwice`).
  They add up, whatever is sampled later, if and only if no work last counted elsewhere still has lines in
  the earlier window (`ActivitySeries.AdjacentWindowsAddUpIff`); without a filter that is always so.
- A Project is frozen between the two phases of its deletion, except that a Task made for a projectless
  Agent leaves with the Agent's assignment to another Project, which does not look at the Task's Project
  (`ProjectManagement.MarkedProjectLosesTask`). An assignment spares a marked Project if and only if nothing
  of it follows the Agent (`ProjectManagement.AssignmentSparesIff`), and a new Task keeps the boundary if and
  only if it is not put past a projectless Agent or Conversation
  (`GuardedAttachments.NewTaskKeepsBoundaryIff`).
- Deletion leaves a run of another Project its steps and bindings, even where they name a removed Task or
  Agent (`ProjectDeletion.RunOutlivesTaskAndAgent`); when it does not is `StepsLeftBehindIff` and
  `BindingsLeftBehindIff`.
- Retention of the event log is invisible to its clients: over every run, a replay that asks for no reset
  returns exactly what it would return had nothing been removed (`EventRetention.RetentionIsInvisible`). No
  order of time stamps is needed, because the row limit removes from below and the time limit of eight days
  removes only rows outside every window of at most seven. Counting such rows too, an old-stamped row logged
  late does go without a reset, though no request can ask for it (`EventRetention.LateRowIsRemovedUnnoticed`);
  that never happens if and only if cursors follow time among the rows that the row limit keeps
  (`EventRetention.RemovalNeverAfterCursorsIff`).

## Model

| member | source | states |
|---|---|---|
| LegacyComponents.Components.constructor | crates/xpressclaw-core/src/db.rs:507-512 | every node starts as its own component, with no edges |
| LegacyComponents.Components.Find | crates/xpressclaw-core/src/db.rs:514-520 | the result is the node's root, shared exactly by the nodes the unioned edges connect to it; the node is re-pointed at it and no other root changes |
| LegacyComponents.Components.Union | crates/xpressclaw-core/src/db.rs:522-535 | afterwards the components are those of the old edges plus this one; the one-byte rank increment cannot overflow |
| LegacyComponents.SameRootIffConnected | crates/xpressclaw-core/src/db.rs:514-535 | two nodes have the same root iff a path of unioned edges joins them |
| LegacyComponents.LinkKeepsForest | crates/xpressclaw-core/src/db.rs:528-534 | hanging the lower-ranked root under the other keeps ranks strictly growing towards the root |
| LegacyComponents.LinkKeepsBalance | crates/xpressclaw-core/src/db.rs:528-534 | a root of rank k keeps at least 2^k nodes in its class |
| LegacyComponents.RankBelow64 | crates/xpressclaw-core/src/db.rs:503-534 | no rank reaches 64, so a u8 never overflows |
| LegacyComponents.DepthIsLogarithmic | crates/xpressclaw-core/src/db.rs:514-520 | the recursion of find is at most log2(n) deep |
| LegacyComponents.ChainsAreShort | crates/xpressclaw-core/src/db.rs:514-520 | following parent links from any node, a root is met within log2(n) links |
| Consolidation.ConsolidationEstablishesBoundary | crates/xpressclaw-core/src/db.rs:538-542 | after consolidation every participant pair, task–Agent, task–Conversation and task–parent pair has the same optional Project, for every database |
| Consolidation.NoProjectLost | crates/xpressclaw-core/src/db.rs:732-768 | no object that had a Project is left without one |
| Consolidation.TargetIsLeast | crates/xpressclaw-core/src/db.rs:680-710 | the target is the Project of the least candidate of the component |
| ConsolidationOutcome.LeastAgentDecides | crates/xpressclaw-core/src/db.rs:680-710 | if Agents of the component own Projects, the target is the Project of the owning Agent with the least id |
| ConsolidationOutcome.LeastProjectDecides | crates/xpressclaw-core/src/db.rs:680-710 | otherwise it is the least Project that a Conversation or Task of the component owns |
| ConsolidationOutcome.NobodyDecides | crates/xpressclaw-core/src/db.rs:680-710 | a component without owners gets none |
| ConsolidationOutcome.RowsAfterwards | crates/xpressclaw-core/src/db.rs:781-801 | every row keeps its place and columns and takes its component's target |
| ConsolidationOutcome.AgentDecidesForAll | crates/xpressclaw-core/src/db.rs:543-817 | afterwards every Agent, Conversation and Task row of the component is in that Agent's Project |
| ConsolidationOutcome.NotesAfterwards | crates/xpressclaw-core/src/db.rs:770-780 | a note follows the rows that own its Project; an unowned Project's notes stay |
| ConsolidationOutcome.ProjectsAfterwards | crates/xpressclaw-core/src/db.rs:802-817 | exactly the Projects that a row or a note still names are kept |
| TextOrder.TextBelowIff | crates/xpressclaw-core/src/db.rs:680-710 | text order is decided at the first place where the texts differ |
| Consolidation.RowOrderIrrelevant | crates/xpressclaw-core/src/db.rs:544-596 | the target does not depend on the order in which the tables are read |
| Consolidation.EqualTargetsConnected | crates/xpressclaw-core/src/db.rs:616-648 | distinct components get distinct targets |
| Consolidation.ProjectTargetIdempotent | crates/xpressclaw-core/src/db.rs:732-768 | every target Project maps to itself |
| Consolidation.ComponentsUnchanged | crates/xpressclaw-core/src/db.rs:543-817 | consolidation neither splits nor joins components |
| Consolidation.ConsolidationIsIdempotent | crates/xpressclaw-core/src/db.rs:543-817 | running the migration again changes no owner, note or Project |
| Consolidation.ReferencesSurvive | crates/xpressclaw-core/src/db.rs:770-817 | every note is kept under an existing Project, and no deleted Project is still named by an object or a note |
| ConsolidationMigration.AnchorProjects | crates/xpressclaw-core/src/db.rs:616-648 | every owner of a Project is its anchor or unioned with it, and every union is a link of the database |
| ConsolidationMigration.LinkParticipants | crates/xpressclaw-core/src/db.rs:650-657 | every participant pair whose rows exist is unioned |
| ConsolidationMigration.LinkTasks | crates/xpressclaw-core/src/db.rs:658-678 | every task is unioned with the existing Agent, Conversation and parent it names |
| ConsolidationMigration.ComponentsMatch | crates/xpressclaw-core/src/db.rs:597-678 | index components of the union-find are exactly the components of the database's objects |
| ConsolidationMigration.ComponentTargets | crates/xpressclaw-core/src/db.rs:680-710 | each root's entry is the least candidate of its class, and classes without owners have none |
| ConsolidationMigration.RecordTarget | crates/xpressclaw-core/src/db.rs:712-730 | it fails exactly when the source already has another target |
| ConsolidationMigration.CollectUpdates | crates/xpressclaw-core/src/db.rs:732-768 | the "multiple collaboration components" error never fires; every object and Project is recorded with its target |
| ConsolidationMigration.SequentialMovesAreSimultaneous | crates/xpressclaw-core/src/db.rs:770-780 | when targets map to themselves, moves in any order equal one simultaneous re-owning |
| ConsolidationMigration.LegacyDatabase.MoveNotes | crates/xpressclaw-core/src/db.rs:770-780 | the sorted memory moves re-own every note of a recorded source, all at once |
| ConsolidationMigration.LegacyDatabase.UpdateOwners | crates/xpressclaw-core/src/db.rs:781-801 | every row gets the owner recorded for it and no other column changes |
| ConsolidationMigration.LegacyDatabase.Consolidate | crates/xpressclaw-core/src/db.rs:543-817 | the whole pass succeeds on every database and computes the consolidated database |
| RepositorySelection.AgentRepositoryManager.PersistSelection | crates/xpressclaw-core/src/repositories.rs:554-618 | it writes iff the generation expectation holds; a write raises the generation by one, and sessions are retired only when asked |
| RepositorySelection.AgentRepositoryManager.ApplyAtBoundary | crates/xpressclaw-core/src/repositories.rs:310-346 | the boundary transition: persist the desired selection when it differs or something is pending |
| RepositorySelection.AgentRepositoryManager.SelectPath | crates/xpressclaw-core/src/repositories.rs:350-391 | the select transition, refused with nothing changed when the workspace or path is not usable |
| RepositorySelection.AgentRepositoryManager.SelectPathLive | crates/xpressclaw-core/src/repositories.rs:397-430 | the live transition with its generation check and same-path marker |
| RepositorySelection.AgentRepositoryManager.ClearSelection | crates/xpressclaw-core/src/repositories.rs:433-455 | the clear transition, which writes even when the workspace is unavailable |
| RepositorySelection.AgentRepositoryManager.ProposePath | crates/xpressclaw-core/src/repositories.rs:459-494 | the propose transition |
| RepositorySelection.AgentRepositoryManager.ProposeClearing | crates/xpressclaw-core/src/repositories.rs:498-525 | the propose-clear transition |
| RepositorySelectionRuns.RunKeepsRowInvariant | crates/xpressclaw-core/src/db.rs:2464-2482 | in every run the row satisfies all CHECK constraints and manual mode carries a path |
| RepositorySelectionRuns.ActiveIsStoredRepository | crates/xpressclaw-core/src/repositories.rs:685-843 | the active repository is the eligible repository at the stored path, whatever is pending |
| RepositorySelectionRuns.ProposalsKeepActive | crates/xpressclaw-core/src/repositories.rs:457-525 | proposals never change the active repository, seen from any later workspace |
| RepositorySelectionRuns.InspectionWants | crates/xpressclaw-core/src/repositories.rs:251-288 | the desired selection equals one read off the repositories, the discovered set and the row alone |
| RepositorySelectionRuns.OneBoundarySettles | crates/xpressclaw-core/src/repositories.rs:310-346 | one boundary reaches a fixed point iff it did not drop a vanished proposal that hid an adoption |
| RepositorySelectionRuns.TwoBoundariesSettle | crates/xpressclaw-core/src/repositories.rs:310-346 | two boundaries always reach a fixed point |
| RepositorySelectionRuns.SettledIsQuiet | crates/xpressclaw-core/src/repositories.rs:310-346 | at a fixed point there is no write, no change report, no session retired, and the state is not Pending |
| RepositorySelectionRuns.MarkedRowRestarts | crates/xpressclaw-core/src/repositories.rs:326-340 | a live marker makes the next boundary report a change and retire every native session, in any workspace |
| RepositorySelectionRuns.MarkerForcesRestart | crates/xpressclaw-core/src/repositories.rs:393-430 | the same after any run of session writes and refused operations following a live selection |
| RepositorySelectionRuns.BoundariesKeepSelection | crates/xpressclaw-core/src/repositories.rs:744-821 | over any run of boundaries a stored path is never replaced and a cleared selection never re-adopted |
| RepositorySelectionRuns.AdoptionStartsFromNothing | crates/xpressclaw-core/src/repositories.rs:785-805 | a boundary changes the path only from an automatic row without one, to the root or to the only repository a complete discovery reports |
| RepositoryTransitions.BoundaryAdopts | crates/xpressclaw-core/src/repositories.rs:845-853 | without a stored path: the root if discovered, else the only repository of a complete discovery, else nothing changes; an adoption retires every session |
| RepositoryTransitions.BoundaryFollowsPath | crates/xpressclaw-core/src/repositories.rs:757-821 | a stored path is kept; its identity follows what is found there, and any difference retires the sessions |
| RepositoryTransitions.BoundaryKeepsCleared | crates/xpressclaw-core/src/repositories.rs:744-756 | a cleared row stays as it is |
| RepositoryTransitions.BoundaryClears | crates/xpressclaw-core/src/repositories.rs:704-713 | a pending clear is carried out |
| RepositoryTransitions.BoundaryTakesProposal | crates/xpressclaw-core/src/repositories.rs:714-743 | a pending path is selected if a repository is there, else dropped with the stored path kept |
| RepositoryTransitions.BoundaryReportsChanges | crates/xpressclaw-core/src/repositories.rs:306-346 | a boundary that changes path or identity reports it; sessions are retired exactly when a change is reported |
| RepositoryTransitions.SelectWrites | crates/xpressclaw-core/src/repositories.rs:350-391 | the row a selection stores, with sessions retired iff it differs from the stored one |
| RepositoryTransitions.SelectLiveWrites | crates/xpressclaw-core/src/repositories.rs:397-430 | the row a live selection stores, its same-path marker and its generation check |
| RepositoryTransitions.ClearWrites | crates/xpressclaw-core/src/repositories.rs:433-455 | the row a clear stores, whatever the workspace is like |
| RepositoryTransitions.ProposalsWrite | crates/xpressclaw-core/src/repositories.rs:457-525 | the rows proposals store; path, identity, mode and sessions stay |
| RepositoryTransitions.UnusablePathIsRefused | crates/xpressclaw-core/src/repositories.rs:350-494 | a path that names no repository is refused with nothing changed |
| RepositoryTransitions.InspectionOffers | crates/xpressclaw-core/src/repositories.rs:251-288 | the candidates: discovered repositories and those the stored and pending paths name |
| RepositoryTransitions.InspectionReports | crates/xpressclaw-core/src/repositories.rs:744-821 | the reported state of a row with nothing pending |
| RepositoryTransitions.InspectionReportsPending | crates/xpressclaw-core/src/repositories.rs:704-743 | the reported state of a row with something pending |
| RepositorySelectionRuns.GenerationCountsWrites | crates/xpressclaw-core/src/repositories.rs:575-599 | the generation counts the writes of any run |
| RepositorySelectionRuns.LiveSelectionIsOptimistic | crates/xpressclaw-core/src/repositories.rs:397-430 | a live selection with an observed generation succeeds iff nothing was written since; otherwise nothing changes |
| RepositorySelectionRuns.SelectTakesEffect | crates/xpressclaw-core/src/repositories.rs:348-391 | a selection attaches the repository at once and is settled; sessions are retired iff it changed anything |
| RepositorySelectionRuns.ProposalAppliesAtBoundary | crates/xpressclaw-core/src/repositories.rs:457-494 | a proposal changes nothing until the next boundary, which selects it and retires the sessions |
| RepositorySelectionRuns.VanishedProposalIsDropped | crates/xpressclaw-core/src/repositories.rs:720-743 | a vanished proposal is dropped and the stored path and mode stay |
| RepositorySelectionRuns.ClearDisablesAdoption | crates/xpressclaw-core/src/repositories.rs:432-455 | after a clear, or a proposed clear applied at any boundary, no run of boundaries activates a repository in any later workspace |
| RepositoryDiscovery.ListChildren | crates/xpressclaw-core/src/repositories.rs:896-914 | exactly the real, non-ignored subdirectories, sorted |
| RepositoryDiscovery.Discover | crates/xpressclaw-core/src/repositories.rs:864-919 | at most 512 directories and 32 repositories, to depth 4; exactly the scanned eligible directories; scanned breadth-first and by name; `truncated` iff some visible directory was not scanned |
| RepositoryDiscovery.DiscoveryIsDetermined | crates/xpressclaw-core/src/repositories.rs:864-919 | the tree determines which directories are scanned, which repositories are found and whether the scan was cut short, also when a limit stops it |
| RepositoryDiscovery.VisibleReadsTheTree | crates/xpressclaw-core/src/repositories.rs:896-926 | what visible means, directory by directory, with the ignored names |
| RepositoryDiscovery.FoundReadsTheTree | crates/xpressclaw-core/src/repositories.rs:875-880 | the returned repositories are the scanned directories at which one was found |
| RepositoryDiscovery.UnhinderedScanIsExhaustive | crates/xpressclaw-core/src/repositories.rs:864-883 | below both limits everything visible down to depth 4 is scanned |
| RepositoryDiscovery.DiscoveredAreNotNested | crates/xpressclaw-core/src/repositories.rs:875-880 | no returned repository lies inside another |
| RepositoryDiscovery.CompleteDiscoveryFindsAll | crates/xpressclaw-core/src/repositories.rs:864-919 | a complete discovery with one result found the only visible repository at any depth |
| AutomaticAdoption.RelativePathIsInjective | crates/xpressclaw-core/src/repositories.rs:1031-1036 | the stored spelling, "." or names joined by "/", tells any two directories apart |
| AutomaticAdoption.AdoptedIsTheOnlyRepository | crates/xpressclaw-core/src/repositories.rs:845-853 | an automatically adopted nested candidate is the only visible repository of the workspace |
| GitConfigWalk.HasSelfContainedConfig | crates/xpressclaw-core/src/repositories.rs:1168-1279 | terminates on cyclic includes and returns true iff both starting files and everything within 16 includes are acceptable, with nothing further, at most 64 files and 1 MiB |
| GitConfigWalk.AcceptedDisk | crates/xpressclaw-core/src/repositories.rs:1168-1279 | acceptance read off the disk: at any distance no malformed record, and only relative includes of regular files inside the workspace |
| GitConfigWalk.DiskAccepted | crates/xpressclaw-core/src/repositories.rs:1168-1279 | conversely a disk that keeps this within the limit is accepted |
| GitConfigWalk.IncludeAtLimitRefused | crates/xpressclaw-core/src/repositories.rs:1186-1188 | a file at the depth limit that includes anything is refused |
| GitConfigWalk.WithinReadsTheDisk | crates/xpressclaw-core/src/repositories.rs:1168-1279 | which files lie how many includes away, read off the disk |
| GitConfigWalk.AcceptableMeansSelfContained | crates/xpressclaw-core/src/repositories.rs:1168-1279 | acceptance covers every file reachable through includes at any distance: regular, inside the workspace, relative includes only |
| GitConfigWalk.ScanRecords | crates/xpressclaw-core/src/repositories.rs:1227-1275 | a file is readable iff every record is well formed and every include is relative, regular and inside; exactly the include targets are queued |
| ProjectTables.AcceptsWork | crates/xpressclaw-core/src/projects.rs:126-146 | work is accepted iff the Project exists and is not being deleted |
| AgentMoves.TasksReachDestination | crates/xpressclaw-core/src/projects.rs:435-492 | the bulk update sends each task where the hierarchy guard predicted |
| AgentMoves.MoveKeepsBoundary | crates/xpressclaw-core/src/projects.rs:369-496 | a move the guards admit keeps every task, Conversation and participant in one Project |
| AgentMoves.RefusedMoveWouldBreakBoundary | crates/xpressclaw-core/src/projects.rs:369-475 | a structural refusal means the update would have broken the boundary |
| AgentMoves.GuardsAreExact | crates/xpressclaw-core/src/projects.rs:369-496 | the three structural guards decide exactly whether the update keeps the boundary |
| ProjectRows.RowsAfterMove | crates/xpressclaw-core/src/projects.rs:477-496 | which Conversations, Tasks and Agents a move re-owns, row by row |
| ProjectRows.RowsAfterRetiring | crates/xpressclaw-core/src/projects.rs:502-519 | a previous Project that nothing names any more hands over its notes and goes; otherwise nothing more happens |
| ProjectRows.AdmittedMoveIsIdle | crates/xpressclaw-core/src/projects.rs:308-333 | an admitted move finds no preparing, running or reviewed attempt and no running turn of the Agent |
| ProjectRows.LiveWorkRefusesMove | crates/xpressclaw-core/src/projects.rs:308-333 | a running turn or attempt alone refuses the move |
| ProjectRows.LiveRefusalHasACause | crates/xpressclaw-core/src/projects.rs:308-333 | a refusal for live work names such an attempt or turn |
| ProjectRows.AdmittedMoveLeavesNoRun | crates/xpressclaw-core/src/projects.rs:335-372 | an admitted move finds no live workflow run that involves the Agent |
| ProjectRows.WorkflowRefusalHasACause | crates/xpressclaw-core/src/projects.rs:335-372 | a refusal for an active workflow names a live run that involves the Agent |
| ProjectRows.RefusalsOfAMove | crates/xpressclaw-core/src/projects.rs:280-307 | which refusal comes first |
| AgentMoves.AssignmentKeepsBoundary | crates/xpressclaw-core/src/projects.rs:280-524 | success puts the Agent in the target with boundary, references and notes intact; refusal changes nothing |
| ProjectManagement.ProjectManager.AssignAgent | crates/xpressclaw-core/src/projects.rs:280-524 | the decision, the resulting tables, and that the boundary is kept |
| ProjectManagement.ProjectManager.Delete | crates/xpressclaw-core/src/projects.rs:526-596 | only an unmarked Project that owns nothing, counting notes, workflows and their uses, runs, schedules and sync states, is deleted |
| ProjectRows.DeletedIffEmpty | crates/xpressclaw-core/src/projects.rs:552-590 | an unmarked Project is deleted iff no counted row belongs to it |
| ProjectManagement.ProjectManager.BeginCascade | crates/xpressclaw-core/src/projects.rs:604-887 | the Project is marked, refuses work and has nothing live |
| ProjectManagement.ProjectManager.FinishCascade | crates/xpressclaw-core/src/projects.rs:892-1085 | only a marked Project; the statements in order amount to one removal and keep the boundary |
| ProjectDeletion.BeginQuiets | crates/xpressclaw-core/src/projects.rs:604-887 | after begin no attempt, turn or run of the Project is live, its schedules are disabled and attachments are refused |
| ProjectRows.OwnersAfterBegin | crates/xpressclaw-core/src/projects.rs:617-625 | the marker is set once, the Project's Agents stop and its Tasks that are not completed are cancelled; nothing else about owners changes |
| ProjectRows.WorkAfterBegin | crates/xpressclaw-core/src/projects.rs:783-866 | its attempts, turns and runs that have not ended are cancelled as of now, its schedules disabled; other work is untouched |
| ProjectDeletion.BeginIsSimultaneous | crates/xpressclaw-core/src/projects.rs:617-866 | the statements of begin, each reading what the previous ones left, equal one simultaneous update |
| ProjectDeletion.BeginIsIdempotent | crates/xpressclaw-core/src/projects.rs:598-625 | an immediate second begin changes nothing, whatever the clock says |
| ProjectDeletion.FinishRemovesExactlyTheProject | crates/xpressclaw-core/src/projects.rs:889-1085 | its Agents, Conversations and Tasks go; all others stay with their Project |
| ProjectRows.OwnersAfterFinish | crates/xpressclaw-core/src/projects.rs:1053-1080 | which Projects, Agents, Conversations, notes and workflows survive, unchanged |
| ProjectRows.TasksAfterFinish | crates/xpressclaw-core/src/projects.rs:912-929 | which Tasks survive, and each of their columns |
| ProjectRows.PairsAfterFinish | crates/xpressclaw-core/src/projects.rs:1066-1080 | which participants, sync states and workflow uses survive |
| ProjectRows.SessionsAfterFinish | crates/xpressclaw-core/src/projects.rs:1060-1066 | which sessions and turns survive |
| ProjectRows.AttemptsAfterFinish | crates/xpressclaw-core/src/projects.rs:941-1039 | which attempts and schedules survive |
| ProjectRows.RunsAfterFinish | crates/xpressclaw-core/src/projects.rs:1040-1058 | which workflow runs survive |
| ProjectRows.RunPartsAfterFinish | crates/xpressclaw-core/src/db.rs:1333-1345 | which steps and bindings survive |
| ProjectRows.RunsOfProject | crates/xpressclaw-core/src/projects.rs:1040-1058 | which runs belong to a Project |
| ProjectRows.WorkOfProject | crates/xpressclaw-core/src/projects.rs:783-866 | which attempts, turns and schedules belong to a Project |
| ProjectDeletion.SurvivingLinks | crates/xpressclaw-core/src/projects.rs:912-929 | a surviving task keeps a link exactly when the linked row survives |
| ProjectDeletion.NoLinkToRemoved | crates/xpressclaw-core/src/projects.rs:892-1085 | no surviving task or participant names a removed Agent, Conversation or parent; no surviving run names a removed Project, Task, Conversation or workflow; no surviving step or binding names a removed run |
| ProjectDeletion.StepsLeftBehindIff | crates/xpressclaw-core/src/db.rs:1333-1345 | no surviving step names a removed Task iff every step of the Project's Tasks belongs to a run that goes |
| ProjectDeletion.BindingsLeftBehindIff | crates/xpressclaw-core/src/db.rs:2637-2648 | no surviving binding names a removed Agent iff every binding of the Project's Agents is the Project's own or belongs to a run that goes |
| ProjectDeletion.RunOutlivesTaskAndAgent | crates/xpressclaw-core/src/projects.rs:1042-1060 | a run of another Project keeps a step of a removed Task and a binding of a removed Agent |
| ProjectDeletion.StatementsAreSimultaneous | crates/xpressclaw-core/src/projects.rs:912-1080 | the statements of finish, run in order with their cascades (runs of its workflows and of its tasks included), equal one simultaneous removal |
| ProjectDeletion.FinishKeepsBoundary | crates/xpressclaw-core/src/projects.rs:892-1085 | finish keeps the boundary and leaves no dangling link |
| ProjectDeletion.DeleteTouchesNothingElse | crates/xpressclaw-core/src/projects.rs:552-594 | an immediate delete takes only the row and leftover bindings |
| GuardedAttachments.ConsistentProject | crates/xpressclaw-core/src/tasks/board.rs:1774-1793 | reports a conflict iff two candidates name different Projects; otherwise the first Project named, if any |
| GuardedAttachments.TaskBoard.CreateTask | crates/xpressclaw-core/src/tasks/board.rs:268-382 | the checks in order, the resolved Project, and the inserted Task; a refusal changes nothing |
| GuardedAttachments.TaskAdmitted | crates/xpressclaw-core/src/tasks/board.rs:268-360 | where a Task goes and when it is admitted, read off the rows it names |
| GuardedAttachments.MixedTaskRefused | crates/xpressclaw-core/src/tasks/board.rs:344-349 | rows of different Projects are refused |
| GuardedAttachments.NewTaskKeepsBoundaryIff | crates/xpressclaw-core/src/tasks/board.rs:344-360 | a new Task keeps the boundary iff it is not put into a Project past a projectless Agent or Conversation of its own |
| GuardedAttachments.NewTurnKeepsQuiet | crates/xpressclaw-core/src/conversations/runtime.rs:186-268 | queueing a turn leaves a Project that refuses work without a live turn |
| GuardedAttachments.TurnQueuedIff | crates/xpressclaw-core/src/conversations/runtime.rs:186-268 | exactly when a turn is queued, and that nothing else changes |
| GuardedAttachments.NewRunKeepsQuiet | crates/xpressclaw-core/src/workflows/instance.rs:155-276 | starting a workflow run leaves a Project that refuses work without a live run, through its Agents' bindings too |
| GuardedAttachments.RunAdmittedIff | crates/xpressclaw-core/src/workflows/instance.rs:160-247 | exactly when a run is admitted, and its Project |
| GuardedAttachments.AgentsAdmittedIff | crates/xpressclaw-core/src/workflows/instance.rs:211-243 | what is asked of the Agents a run binds |
| GuardedAttachments.RunStartedRows | crates/xpressclaw-core/src/workflows/instance.rs:244-270 | the run, its bindings and the recorded use of its workflow |
| ProjectManagement.MarkedProjectIsFrozen | crates/xpressclaw-core/src/projects.rs:598-604 | between the phases no assignment, begin, finish, deletion, or creation of an Agent, Conversation, Task, turn or run unmarks the Project, changes what it owns or revives its Tasks, turns, runs, schedules or Agents; creating Tasks is among them when every Agent and Conversation has a Project |
| ProjectManagement.PhasesAreGuarded | crates/xpressclaw-core/src/projects.rs:898-910 | the second phase runs only on a marked Project, an immediate deletion only on an unmarked one |
| ProjectManagement.OneAfterAnother | crates/xpressclaw-core/src/projects.rs:598-604 | transactions of a sequence run one after another |
| ProjectManagement.AttachmentsRead | crates/xpressclaw-core/src/agents/registry.rs:112-140 | what creating an Agent or a Conversation inside a Project does |
| ProjectManagement.BeginCanBeRetried | crates/xpressclaw-core/src/projects.rs:598-625 | begin again after any such transactions: nothing changes |
| ProjectManagement.AssignmentSparesIff | crates/xpressclaw-core/src/projects.rs:477-496 | in any database an admitted assignment leaves a marked Project its rows iff none of its Conversations has the Agent and none of its Tasks is bound for the target |
| ProjectManagement.MarkedProjectLosesTask | crates/xpressclaw-core/src/projects.rs:280-524 | a Task created for a projectless Agent leaves a Project that is being deleted when the Agent is assigned elsewhere |
| ProjectManagement.CascadeRemovesWhatItMarked | crates/xpressclaw-core/src/projects.rs:598-1085 | begin, any of those transactions, finish: exactly what the Project owned at begin is removed |
| ActivitySeries.EmptyChart | crates/xpressclaw-core/src/dashboard.rs:1043-1050 | one empty point per bucket from the window start to now |
| ActivitySeries.Series | crates/xpressclaw-core/src/dashboard.rs:1015-1123 | one point per multiple of the bucket width from the window start to now, each holding exactly the activity of the rows stamped in its own span, given the seeds |
| ActivitySeries.BucketHoldsTime | crates/xpressclaw-core/src/dashboard.rs:1443-1445 | a bucket is the span of its width that holds the time |
| ActivitySeries.RowShows | crates/xpressclaw-core/src/dashboard.rs:1097-1121 | what one row adds: its tool calls, and by net and gross change its additions and deletions |
| ActivitySeries.TotalCountsToolCalls | crates/xpressclaw-core/src/dashboard.rs:1097-1099 | tool calls add up over the rows |
| ActivitySeries.WindowReadsTheTable | crates/xpressclaw-core/src/dashboard.rs:1019-1025 | which rows a chart reads |
| ActivitySeries.SeedReadsTheTable | crates/xpressclaw-core/src/dashboard.rs:1054-1086 | a work's seed is its last counted row before the window, if that is of the Project asked for |
| ActivitySeries.BucketsSumToTotal | crates/xpressclaw-core/src/dashboard.rs:1443-1445 | for any bucket width the buckets sum to the same total |
| ActivitySeries.SameWindowAnyWidth | crates/xpressclaw-core/src/dashboard.rs:1443-1445 | two charts of the same rows with different bucket widths show the same sum |
| ActivitySeries.TotalIsNetChange | crates/xpressclaw-core/src/dashboard.rs:1100-1121 | additions minus deletions are the summed net change of every work from seed to last sample |
| ActivitySeries.TotalIsVariation | crates/xpressclaw-core/src/dashboard.rs:1100-1121 | additions plus deletions are the total variation of the sample path |
| ActivitySeries.SeenIsLastSample | crates/xpressclaw-core/src/dashboard.rs:1100-1103 | each work is remembered by its last counted sample, or by its seed |
| ActivitySeries.ChartShowsTheActivity | crates/xpressclaw-core/src/dashboard.rs:1015-1149 | what a chart shows in all, in terms of the samples alone |
| ActivitySeries.SeedsChain | crates/xpressclaw-core/src/dashboard.rs:1054-1086 | a later window's seed is what the rows in between leave of the earlier seed |
| ActivitySeries.AdjacentWindowsAddUp | crates/xpressclaw-core/src/dashboard.rs:1015-1149 | adjacent windows add up when each work's counted rows share a Project or there is no filter |
| ActivitySeries.AdjacentWindowsAddUpIff | crates/xpressclaw-core/src/dashboard.rs:1054-1121 | they add up for every continuation of the samples iff no work last counted in another Project still has lines in the earlier window |
| ActivitySeries.ForgottenWorkIsChartedTwice | crates/xpressclaw-core/src/dashboard.rs:1059-1076 | one more sample of such a work breaks the sum |
| ActivitySeries.CarriedIsLastCounted | crates/xpressclaw-core/src/dashboard.rs:1054-1103 | a work not last counted elsewhere is carried into the later window by its last counted sample |
| ActivitySeries.MovedWorkIsChartedTwice | crates/xpressclaw-core/src/dashboard.rs:1059-1076 | they do not for a work whose samples changed Project under a filter |
| MetricSamples.MetricPoints.InsertGitSample | crates/xpressclaw-core/src/dashboard.rs:1398-1437 | terminates, takes the first free slot and overwrites nothing |
| MetricSamples.SlotsIncrease | crates/xpressclaw-core/src/dashboard.rs:1398-1437 | samples of one work land in strictly increasing slots in observation order, with other rows and retention in between |
| MetricSamples.SamplesPersist | crates/xpressclaw-core/src/dashboard.rs:1398-1437 | a stored sample is never overwritten or moved |
| GitBaselines.BaselineTable.Capture | crates/xpressclaw-core/src/dashboard.rs:514-636 | the capture transition, which keeps exact attribution exclusive |
| GitBaselines.BaselineTable.Record | crates/xpressclaw-core/src/dashboard.rs:643-756 | the snapshot transition: nothing for closed or debounced baselines, otherwise the worse state |
| GitBaselines.BaselineTable.FinalizeInactive | crates/xpressclaw-core/src/dashboard.rs:32-59 | the same baselines with the same workspace, state and snapshot time; one is closed afterwards iff it was, or its work is not executing and it is in scope; exact attribution stays exclusive |
| GitBaselines.RecordedRow | crates/xpressclaw-core/src/dashboard.rs:643-756 | which snapshots are taken, the worse state, and that a final one closes the baseline |
| GitBaselines.RankOrders | crates/xpressclaw-core/src/dashboard.rs:708-714 | the ranks tell available, partial and unavailable apart |
| GitBaselines.CapturedRow | crates/xpressclaw-core/src/dashboard.rs:520-617 | the state a capture opens with: partial if dirty, unavailable without Git, partial if shared |
| GitBaselines.CapturedOthers | crates/xpressclaw-core/src/dashboard.rs:541-590 | what a capture does to every other baseline |
| GitBaselines.RunKeepsExclusive | crates/xpressclaw-core/src/dashboard.rs:541-617 | in every run an available open baseline has only unavailable open neighbours in its workspace |
| GitBaselines.ExactAttributionIsExclusive | crates/xpressclaw-core/src/dashboard.rs:541-617 | in every run from the empty table, next to an available open baseline every other open one of its workspace is unavailable |
| GitBaselines.StateOnlyWorsens | crates/xpressclaw-core/src/dashboard.rs:689-748 | between captures a work's state only moves available, partial, unavailable, and it never reopens |
| EventLog.FeedPagesAreTheFeed | crates/xpressclaw-core/src/dashboard.rs:277-330 | feed pages concatenate to every newest version of a feed kind, newest first |
| EventLog.ReplayPagesAreTheLog | crates/xpressclaw-core/src/dashboard.rs:332-384 | paging by the last cursor yields each matching row once, in order, without a reset |
| EventLog.FeedEqualsFoldedReplay | crates/xpressclaw-core/src/dashboard.rs:277-384 | folding the replay last-write-wins and keeping feed kinds gives exactly the feed |
| EventLog.ReplayPagesFrom | crates/xpressclaw-core/src/dashboard.rs:332-384 | paging from any accepted cursor yields exactly the matching rows after it |
| EventLog.ReplayServes | crates/xpressclaw-core/src/dashboard.rs:332-384 | an event is served iff it is in the log, after the cursor, in the window and of the Project asked for |
| EventLog.FeedServes | crates/xpressclaw-core/src/dashboard.rs:277-330 | an event is in the feed iff it is a response, update or deletion of the window and Project that no later version there replaces |
| EventLog.FeedPageIs | crates/xpressclaw-core/src/dashboard.rs:283-328 | what one page holds, its limits and whether more is announced |
| EventLog.ReplayPageIs | crates/xpressclaw-core/src/dashboard.rs:332-384 | what one replay page holds, its limits and when a reset is asked for |
| EventRetention.PruneReadsTheLog | crates/xpressclaw-core/src/dashboard.rs:1157-1166 | retention keeps the events of eight days among the last 20,000 cursors |
| EventRetention.StepReadsTheLogs | crates/xpressclaw-core/src/dashboard.rs:1151-1166 | what an append, retention and a Project deletion do to the log |
| EventRetention.RequestedWindow | crates/xpressclaw-core/src/dashboard.rs:62-75 | a request covers an hour, a day or a week |
| EventRetention.RunRemovesFromBelow | crates/xpressclaw-core/src/dashboard.rs:1157-1166 | over every run of appends, retention and Project deletions, a removed row of a window lies below every row that is left |
| EventRetention.NoClientMissesAnEvent | crates/xpressclaw-core/src/dashboard.rs:332-384 | a client that is not told to reset can read every event of its window after its cursor, in whatever order events were stamped |
| EventRetention.RetentionIsInvisible | crates/xpressclaw-core/src/dashboard.rs:332-384 | such a replay returns what it would return had retention never removed anything, page by page and as a whole |
| EventRetention.PruningRemovesAPrefix | crates/xpressclaw-core/src/dashboard.rs:1157-1166 | when cursors follow time, retention removes a prefix |
| EventRetention.NoSilentLoss | crates/xpressclaw-core/src/dashboard.rs:345-359 | a positive cursor without a reset has lost nothing to a removed prefix |
| EventRetention.ResetIsExact | crates/xpressclaw-core/src/dashboard.rs:345-359 | without cursor gaps a reset is asked for iff a later event was removed or the client is ahead |
| EventRetention.RemovalIffExpiredFollowsKept | crates/xpressclaw-core/src/dashboard.rs:1157-1166 | counting also rows outside every window: one cutoff removes no row after an accepted cursor iff no expired row follows a kept one |
| EventRetention.RemovalNeverAfterCursorsIff | crates/xpressclaw-core/src/dashboard.rs:1157-1166 | the same for all cutoffs, iff cursors follow time among the rows the row limit keeps |
| EventRetention.LateRowIsRemovedUnnoticed | crates/xpressclaw-core/src/dashboard.rs:1157-1166 | an old-stamped row logged late goes without a reset, and no window at or after that time shows it |
| EventRetention.ExpiredByTimeIsNeverServed | crates/xpressclaw-core/src/dashboard.rs:62-75 | a row past the eight days of retention is outside every range a request can name |

## Left out

- SQL text, locking, triggers, indexes and the other migrations; only the foreign-key effects named in the table functions are modelled.
- `move_project_memory` beyond re-owning notes: the vector index it rebuilds is not modelled.
- Interleavings inside one manager operation; callers hold a per-Agent barrier, so each operation is one step.
- `inspect_repository`, path canonicalisation, process calls and SHA-256 identities: eligibility and identity are data of the modelled file system, which does not change during one operation. The include walk's file system is coherent: a regular file resolves to a file that resolves to itself.
- The final sort of discovered repositories by relative path: discovery is determined as a set of repositories.
- Deletion plans (container and runtime ids), queues, pull requests, apps, budgets and logs in the two phases of deletion; `updated_at` columns.
- Guarded attachments other than creating Agents (`agents/registry.rs`) and Conversations inside a Project (`conversations/mod.rs`), Tasks, turns and workflow runs: attempts, schedules, steps, moves of Tasks and runs, sync and connectors. Tasks an Agent creates for itself, local scheduling of a parent Task and the trigger message of a turn are not distinguished.
- EventRetention.NoClientMissesAnEvent: requests are answered by a clock at most a day behind the one retention used.
- Saturating arithmetic, context occupancy and the per-bucket Git state of the activity series; timestamps are integers, so the two text formats of slots are not distinguished.
- `attributed_delta`, Git detail texts and the state of already stored metric rows in captures.
- The manager's agent table: a selection belongs to one Agent, so the model has one object per Agent.

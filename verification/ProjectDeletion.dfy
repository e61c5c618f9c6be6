/** Two-phase deletion of a Project: `begin_cascade` marks it and ends its work, `finish_cascade`
    removes what it owns. */
module ProjectDeletion {
  import opened Options
  import opened ProjectTables
  import opened AgentMoves

  // ---- Phase one ----

  function BegunProjects(projects: map<Id, Project>, p: Id, now: Time): map<Id, Project>
    requires p in projects
  {
    projects[p := Project(if projects[p].deletionStartedAt.Some? then projects[p].deletionStartedAt else Some(now))]
  }

  function CancelledAttempts(db: Tables, p: Id, now: Time): map<Id, Attempt> {
    map x | x in db.attempts ::
      if !Terminal(db.attempts[x].status) && AttemptIn(db, db.attempts[x], p)
      then db.attempts[x].(status := AttemptCancelled, endedAt := Some(now)) else db.attempts[x]
  }

  function CancelledTasks(tasks: map<Id, Task>, p: Id): map<Id, Task> {
    map t | t in tasks ::
      if tasks[t].project == Some(p) && tasks[t].status == Open then tasks[t].(status := Cancelled) else tasks[t]
  }

  function CancelledTurns(db: Tables, p: Id, now: Time): map<Id, Turn> {
    map x | x in db.turns ::
      if ConversationIn(db, db.turns[x].conversation, p) && LiveTurnStatus(db.turns[x].status)
      then db.turns[x].(status := TurnCancelled, endedAt := Some(now)) else db.turns[x]
  }

  function CancelledRuns(db: Tables, p: Id, now: Time): map<Id, Run> {
    map x | x in db.runs ::
      if RunIn(db, x, db.runs[x], p) && LiveRunStatus(db.runs[x].status)
      then db.runs[x].(status := RunCancelled, endedAt := Some(now)) else db.runs[x]
  }

  function DisabledSchedules(db: Tables, p: Id): map<Id, Schedule> {
    map x | x in db.schedules ::
      if ScheduleIn(db, db.schedules[x], p) then db.schedules[x].(enabled := false) else db.schedules[x]
  }

  function StoppedAgents(agents: map<Id, Agent>, p: Id): map<Id, Agent> {
    map a | a in agents :: if agents[a].project == Some(p) then agents[a].(stopped := true) else agents[a]
  }

  function Begun(db: Tables, p: Id, now: Time): Tables {
    if p !in db.projects then db
    else
      db.(projects := BegunProjects(db.projects, p, now),
          attempts := CancelledAttempts(db, p, now),
          tasks := CancelledTasks(db.tasks, p),
          turns := CancelledTurns(db, p, now),
          runs := CancelledRuns(db, p, now),
          schedules := DisabledSchedules(db, p),
          agents := StoppedAgents(db.agents, p))
  }

  // The statements of `begin_cascade`, each reading the tables as the previous ones left them.

  function MarkProject(db: Tables, p: Id, now: Time): Tables
    requires p in db.projects
  {
    db.(projects := BegunProjects(db.projects, p, now))
  }

  function CancelAttempts(db: Tables, p: Id, now: Time): Tables {
    db.(attempts := CancelledAttempts(db, p, now))
  }

  function CancelTasks(db: Tables, p: Id): Tables {
    db.(tasks := CancelledTasks(db.tasks, p))
  }

  function CancelTurns(db: Tables, p: Id, now: Time): Tables {
    db.(turns := CancelledTurns(db, p, now))
  }

  function CancelRuns(db: Tables, p: Id, now: Time): Tables {
    db.(runs := CancelledRuns(db, p, now))
  }

  function DisableSchedules(db: Tables, p: Id): Tables {
    db.(schedules := DisabledSchedules(db, p))
  }

  function StopAgents(db: Tables, p: Id): Tables {
    db.(agents := StoppedAgents(db.agents, p))
  }

  /** Cancelling Tasks keeps their Project. */
  lemma CancellingKeepsOwned(db: Tables, db': Tables, p: Id)
    requires db'.agents == db.agents && db'.conversations == db.conversations
    requires db'.tasks == db.tasks || db'.tasks == CancelledTasks(db.tasks, p)
    ensures SameOwned(db, db', p)
  {
  }

  lemma AttemptsDependOnOwned(db: Tables, db': Tables, p: Id, now: Time)
    requires SameOwned(db, db', p) && db'.sessions == db.sessions && db'.attempts == db.attempts
    ensures CancelledAttempts(db', p, now) == CancelledAttempts(db, p, now)
  {
  }

  lemma TurnsDependOnOwned(db: Tables, db': Tables, p: Id, now: Time)
    requires SameOwned(db, db', p) && db'.turns == db.turns
    ensures CancelledTurns(db', p, now) == CancelledTurns(db, p, now)
  {
  }

  lemma RunsDependOnOwned(db: Tables, db': Tables, p: Id, now: Time)
    requires SameOwned(db, db', p) && db'.steps == db.steps && db'.bindings == db.bindings && db'.runs == db.runs
    ensures CancelledRuns(db', p, now) == CancelledRuns(db, p, now)
  {
    forall x | x in db.runs ensures RunIn(db', x, db.runs[x], p) <==> RunIn(db, x, db.runs[x], p) {}
  }

  lemma SchedulesDependOnOwned(db: Tables, db': Tables, p: Id)
    requires SameOwned(db, db', p) && db'.schedules == db.schedules
    ensures DisabledSchedules(db', p) == DisabledSchedules(db, p)
  {
  }

  lemma EndStatements(db: Tables, p: Id, now: Time)
    requires p in db.projects
    ensures CancelTasks(CancelAttempts(MarkProject(db, p, now), p, now), p) ==
            db.(projects := BegunProjects(db.projects, p, now), attempts := CancelledAttempts(db, p, now),
                tasks := CancelledTasks(db.tasks, p))
  {
    var marked := MarkProject(db, p, now);
    CancellingKeepsOwned(db, marked, p);
    AttemptsDependOnOwned(db, marked, p, now);
  }

  lemma QuietStatements(db: Tables, ended: Tables, p: Id, now: Time)
    requires p in db.projects
    requires ended == db.(projects := BegunProjects(db.projects, p, now), attempts := CancelledAttempts(db, p, now),
                          tasks := CancelledTasks(db.tasks, p))
    ensures DisableSchedules(CancelRuns(CancelTurns(ended, p, now), p, now), p) ==
            ended.(turns := CancelledTurns(db, p, now), runs := CancelledRuns(db, p, now),
                   schedules := DisabledSchedules(db, p))
  {
    CancellingKeepsOwned(db, ended, p);
    TurnsDependOnOwned(db, ended, p, now);
    var turns := CancelTurns(ended, p, now);
    CancellingKeepsOwned(db, turns, p);
    RunsDependOnOwned(db, turns, p, now);
    var runs := CancelRuns(turns, p, now);
    CancellingKeepsOwned(db, runs, p);
    SchedulesDependOnOwned(db, runs, p);
  }

  /** Statement by statement, the first phase is one simultaneous update. */
  lemma BeginIsSimultaneous(db: Tables, p: Id, now: Time)
    requires p in db.projects
    ensures var ended := CancelTasks(CancelAttempts(MarkProject(db, p, now), p, now), p);
            var quiet := DisableSchedules(CancelRuns(CancelTurns(ended, p, now), p, now), p);
            StopAgents(quiet, p) == Begun(db, p, now)
  {
    EndStatements(db, p, now);
    QuietStatements(db, CancelTasks(CancelAttempts(MarkProject(db, p, now), p, now), p), p, now);
  }

  ghost predicate Marked(db: Tables, p: Id) {
    p in db.projects && db.projects[p].deletionStartedAt.Some?
  }

  /** Beginning never changes who owns what. */
  lemma BeginKeepsOwnership(db: Tables, p: Id, now: Time, q: Id)
    ensures var db' := Begun(db, p, now);
            SameOwned(db, db', q)
  {
  }

  /** After the first phase the Project is marked, refuses work and has nothing live. */
  lemma BeginQuiets(db: Tables, p: Id, now: Time)
    requires p in db.projects
    ensures var db' := Begun(db, p, now);
            Marked(db', p) && AcceptsWork(db', p) == Refused(ProjectDeleting) && Quiet(db', p)
  {
  }

  /** Beginning with one Project wakes no work of another. */
  lemma BeginKeepsQuiet(db: Tables, p: Id, now: Time, q: Id)
    requires Quiet(db, q)
    ensures Quiet(Begun(db, p, now), q)
  {
  }

  ghost predicate Ended(db: Tables, p: Id) {
    && (forall t :: TaskIn(db, t, p) ==> db.tasks[t].status != Open)
    && (forall a :: AgentIn(db, a, p) ==> db.agents[a].stopped)
  }

  lemma NothingToCancel(db: Tables, p: Id, now: Time)
    requires Quiet(db, p)
    ensures CancelledAttempts(db, p, now) == db.attempts && CancelledTurns(db, p, now) == db.turns
    ensures CancelledRuns(db, p, now) == db.runs && DisabledSchedules(db, p) == db.schedules
  {
  }

  lemma NothingToStop(db: Tables, p: Id, now: Time)
    requires Marked(db, p) && Ended(db, p)
    ensures CancelledTasks(db.tasks, p) == db.tasks && StoppedAgents(db.agents, p) == db.agents
            && BegunProjects(db.projects, p, now) == db.projects
  {
  }

  lemma BeginEnds(db: Tables, p: Id, now: Time)
    requires p in db.projects
    ensures Ended(Begun(db, p, now), p)
  {
  }

  /** Retrying the first phase changes nothing, whatever the clock says: the marker keeps its
      first time and no work is ended twice. */
  lemma BeginIsIdempotent(db: Tables, p: Id, now: Time, later: Time)
    ensures Begun(Begun(db, p, now), p, later) == Begun(db, p, now)
  {
    if p in db.projects {
      BeginQuiets(db, p, now);
      BeginEnds(db, p, now);
      NothingToBegin(Begun(db, p, now), p, later);
    }
  }

  lemma NothingToBegin(db: Tables, p: Id, later: Time)
    requires Marked(db, p) && Quiet(db, p) && Ended(db, p)
    ensures Begun(db, p, later) == db
  {
    NothingToCancel(db, p, later);
    NothingToStop(db, p, later);
  }

  // ---- Phase two ----

  /** Tasks of other Projects let go of Conversations and Agents that are about to go. */
  function DetachedTask(db: Tables, p: Id, task: Task): Task {
    if task.project == Some(p) then task
    else
      var task1 := if OptionalConversationIn(db, task.conversation, p) then task.(conversation := None) else task;
      if task1.agent.Some? && AgentIn(db, task1.agent.value, p) then task1.(agent := None) else task1
  }

  function DetachedTasks(db: Tables, p: Id): map<Id, Task> {
    map t | t in db.tasks :: DetachedTask(db, p, db.tasks[t])
  }

  function AgentsOf(agents: map<Id, Agent>, p: Id): set<Id> {
    set a | a in agents && agents[a].project == Some(p)
  }

  function ConversationsOf(conversations: map<Id, Conversation>, p: Id): set<Id> {
    set c | c in conversations && conversations[c].project == Some(p)
  }

  function TasksOf(tasks: map<Id, Task>, p: Id): set<Id> {
    set t | t in tasks && tasks[t].project == Some(p)
  }

  function RunsOf(db: Tables, p: Id): set<Id> {
    set x | x in db.runs && RunIn(db, x, db.runs[x], p)
  }

  function RunsFrom(runs: map<Id, Run>, tasks: set<Id>): set<Id> {
    set x | x in runs && runs[x].sourceTask.Some? && runs[x].sourceTask.value in tasks
  }

  /** Children of a deleted Task lose their parent (SET NULL). */
  function TasksWithout(tasks: map<Id, Task>, gone: set<Id>): map<Id, Task> {
    map t | t in tasks - gone ::
      if tasks[t].parent.Some? && tasks[t].parent.value in gone then tasks[t].(parent := None) else tasks[t]
  }

  function KeptSchedules(db: Tables, p: Id): map<Id, Schedule> {
    map x | x in db.schedules && !ScheduleIn(db, db.schedules[x], p) :: db.schedules[x]
  }

  function KeptAttempts(db: Tables, p: Id): map<Id, Attempt> {
    map x | x in db.attempts && !AttemptIn(db, db.attempts[x], p) :: db.attempts[x]
  }

  function ParticipantsOutside(participants: set<(Id, Id)>, conversations: set<Id>, agents: set<Id>): set<(Id, Id)> {
    set m | m in participants && m.0 !in conversations && m.1 !in agents
  }

  function TurnsOutside(turns: map<Id, Turn>, conversations: set<Id>, agents: set<Id>): map<Id, Turn> {
    map x | x in turns && turns[x].conversation !in conversations && turns[x].agent !in agents :: turns[x]
  }

  function SessionsOutside(sessions: map<Id, Session>, agents: set<Id>): map<Id, Session> {
    map x | x in sessions && sessions[x].agent !in agents :: sessions[x]
  }

  function KeptBindings(bindings: set<Binding>, runs: set<Id>, p: Id): set<Binding> {
    set b | b in bindings && b.run !in runs && b.project != p
  }

  function StepsOutside(steps: set<(Id, Id)>, runs: set<Id>): set<(Id, Id)> {
    set s | s in steps && s.0 !in runs
  }

  function NotesOutside(notes: map<Id, Id>, p: Id): map<Id, Id> {
    map n | n in notes && notes[n] != p :: notes[n]
  }

  function UsesOutside(rows: set<(Id, Id)>, p: Id, workflows: set<Id>): set<(Id, Id)> {
    set r | r in rows && r.0 != p && r.1 !in workflows
  }

  /** Runs of the Project, runs attached to its Tasks and runs of its workflows. */
  function RunsGone(db: Tables, p: Id): set<Id> {
    RunsOf(db, p) + RunsFrom(db.runs, TasksOf(db.tasks, p)) + RunsUsing(db.runs, WorkflowsOf(db.workflows, p))
  }

  /** Everything that does not belong to the Project, with the links to it cut. */
  function Finished(db: Tables, p: Id): Tables {
    var agents, conversations := AgentsOf(db.agents, p), ConversationsOf(db.conversations, p);
    var runs, workflows := RunsGone(db, p), WorkflowsOf(db.workflows, p);
    Tables(db.projects - {p},
           db.agents - agents,
           db.conversations - conversations,
           ParticipantsOutside(db.participants, conversations, agents),
           TasksWithout(DetachedTasks(db, p), TasksOf(db.tasks, p)),
           NotesOutside(db.notes, p),
           db.workflows - workflows,
           UsesOutside(db.projectWorkflows, p, workflows),
           RowsOutside(db.syncStates, p),
           SessionsOutside(db.sessions, agents),
           KeptAttempts(db, p),
           TurnsOutside(db.turns, conversations, agents),
           db.runs - runs,
           StepsOutside(db.steps, runs),
           KeptBindings(db.bindings, runs, p),
           KeptSchedules(db, p))
  }

  function FinishDecision(db: Tables, p: Id): Result {
    if p !in db.projects then Refused(ProjectNotFound)
    else if db.projects[p].deletionStartedAt.None? then Refused(Unacknowledged)
    else Ok
  }

  // The statements of `finish_cascade`, each reading the tables as the previous ones left them.

  function DetachTasks(db: Tables, p: Id): Tables {
    db.(tasks := DetachedTasks(db, p))
  }

  function DeleteSchedules(db: Tables, p: Id): Tables {
    db.(schedules := KeptSchedules(db, p))
  }

  function DeleteAttempts(db: Tables, p: Id): Tables {
    db.(attempts := KeptAttempts(db, p))
  }

  function DeleteRuns(db: Tables, p: Id): Tables {
    WithoutRuns(db, RunsOf(db, p))
  }

  /** Participant rows and turns go with their Conversation (CASCADE). */
  function DeleteConversations(db: Tables, p: Id): Tables {
    var gone := ConversationsOf(db.conversations, p);
    db.(participants := ParticipantsOutside(db.participants, gone, {}),
        turns := TurnsOutside(db.turns, gone, {}),
        conversations := db.conversations - gone)
  }

  /** Runs attached to a Task go with it (CASCADE). */
  function DeleteTasks(db: Tables, p: Id): Tables {
    var gone := TasksOf(db.tasks, p);
    WithoutRuns(db, RunsFrom(db.runs, gone)).(tasks := TasksWithout(db.tasks, gone))
  }

  function DeleteSessions(db: Tables, p: Id): Tables {
    db.(sessions := SessionsOutside(db.sessions, AgentsOf(db.agents, p)))
  }

  /** Explicitly the Agents' participant rows, then the Agents with their turns (CASCADE). */
  function DeleteAgents(db: Tables, p: Id): Tables {
    var gone := AgentsOf(db.agents, p);
    db.(participants := ParticipantsOutside(db.participants, {}, gone),
        turns := TurnsOutside(db.turns, {}, gone),
        agents := db.agents - gone)
  }

  /** Notes, sync states and workflow uses, each by its own statement. */
  function DeleteProjectRows(db: Tables, p: Id): Tables {
    db.(notes := NotesOutside(db.notes, p),
        syncStates := RowsOutside(db.syncStates, p),
        projectWorkflows := RowsOutside(db.projectWorkflows, p))
  }

  lemma DetachingKeepsOwners(db: Tables, p: Id)
    ensures SameOwned(db, DetachTasks(db, p), p) && TasksOf(DetachedTasks(db, p), p) == TasksOf(db.tasks, p)
  {
  }

  lemma SchedulesKept(db: Tables, db': Tables, p: Id)
    requires SameOwned(db, db', p) && db'.schedules == db.schedules
    ensures KeptSchedules(db', p) == KeptSchedules(db, p)
  {
  }

  lemma AttemptsKept(db: Tables, db': Tables, p: Id)
    requires SameOwned(db, db', p) && db'.sessions == db.sessions && db'.attempts == db.attempts
    ensures KeptAttempts(db', p) == KeptAttempts(db, p)
  {
  }

  lemma RunsFound(db: Tables, db': Tables, p: Id)
    requires SameOwned(db, db', p) && db'.runs == db.runs && db'.steps == db.steps && db'.bindings == db.bindings
    ensures RunsOf(db', p) == RunsOf(db, p)
  {
    forall x | x in db.runs ensures RunIn(db', x, db.runs[x], p) <==> RunIn(db, x, db.runs[x], p) {}
  }

  /** The first four statements read owners that none of them changes. */
  lemma WorkStatements(db: Tables, p: Id)
    ensures DeleteRuns(DeleteAttempts(DeleteSchedules(DetachTasks(db, p), p), p), p) ==
            WithoutRuns(db, RunsOf(db, p)).(
              tasks := DetachedTasks(db, p), schedules := KeptSchedules(db, p), attempts := KeptAttempts(db, p))
  {
    var db1 := DetachTasks(db, p);
    DetachingKeepsOwners(db, p);
    SchedulesKept(db, db1, p);
    var db2 := DeleteSchedules(db1, p);
    assert SameOwned(db, db2, p);
    AttemptsKept(db, db2, p);
    var db3 := DeleteAttempts(db2, p);
    assert SameOwned(db, db3, p);
    RunsFound(db, db3, p);
  }

  lemma FilteredTwice(participants: set<(Id, Id)>, turns: map<Id, Turn>, conversations: set<Id>, agents: set<Id>)
    ensures ParticipantsOutside(ParticipantsOutside(participants, conversations, {}), {}, agents) ==
            ParticipantsOutside(participants, conversations, agents)
    ensures TurnsOutside(TurnsOutside(turns, conversations, {}), {}, agents) ==
            TurnsOutside(turns, conversations, agents)
  {
  }

  /** The next four cascade to disjoint rows. */
  lemma OwnerStatements(db: Tables, p: Id)
    ensures var agents, conversations := AgentsOf(db.agents, p), ConversationsOf(db.conversations, p);
            var tasks := TasksOf(db.tasks, p);
            DeleteAgents(DeleteSessions(DeleteTasks(DeleteConversations(db, p), p), p), p) ==
            WithoutRuns(db, RunsFrom(db.runs, tasks)).(
              conversations := db.conversations - conversations, tasks := TasksWithout(db.tasks, tasks),
              turns := TurnsOutside(db.turns, conversations, agents), sessions := SessionsOutside(db.sessions, agents),
              participants := ParticipantsOutside(db.participants, conversations, agents), agents := db.agents - agents)
  {
    FilteredTwice(db.participants, db.turns, ConversationsOf(db.conversations, p), AgentsOf(db.agents, p));
  }

  lemma UsesFiltered(rows: set<(Id, Id)>, p: Id, workflows: set<Id>)
    ensures RowsOutside((set w | w in RowsOutside(rows, p) && w.1 !in workflows), p) == UsesOutside(rows, p, workflows)
  {
  }

  /** The last statements take the Project's remaining rows. */
  lemma RowStatements(db: Tables, p: Id)
    ensures var workflows := WorkflowsOf(db.workflows, p);
            var kept := WithoutRuns(db, RunsUsing(db.runs, workflows));
            WithoutProject(DeleteProjectRows(db, p), p) ==
            kept.(runs := ReleasedRuns(kept.runs, p), bindings := BindingsOutside(kept.bindings, p),
                  notes := NotesOutside(db.notes, p), workflows := db.workflows - workflows,
                  projectWorkflows := UsesOutside(db.projectWorkflows, p, workflows),
                  syncStates := RowsOutside(db.syncStates, p), projects := db.projects - {p})
  {
    UsesFiltered(db.projectWorkflows, p, WorkflowsOf(db.workflows, p));
    assert RowsOutside(RowsOutside(db.syncStates, p), p) == RowsOutside(db.syncStates, p);
  }

  lemma WithoutRunsTwice(db: Tables, gone: set<Id>, more: set<Id>)
    ensures WithoutRuns(WithoutRuns(db, gone), more) == WithoutRuns(db, gone + more)
  {
  }

  /** Whichever statement takes a run, the runs that go are those the tables name at the start. */
  lemma RunsGoInStages(db: Tables, p: Id)
    ensures var first, tasks, workflows := RunsOf(db, p), TasksOf(db.tasks, p), WorkflowsOf(db.workflows, p);
            var second := RunsFrom(db.runs - first, tasks);
            first + second + RunsUsing(db.runs - first - second, workflows) == RunsGone(db, p)
  {
  }

  /** No run that is left names the Project. */
  lemma NothingToRelease(db: Tables, p: Id)
    ensures ReleasedRuns(db.runs - RunsGone(db, p), p) == db.runs - RunsGone(db, p)
  {
    assert forall x :: x in db.runs && db.runs[x].project == Some(p) ==> RunIn(db, x, db.runs[x], p);
  }

  /** Statement by statement, the second phase is one simultaneous removal. */
  lemma StatementsAreSimultaneous(db: Tables, p: Id)
    ensures var work := DeleteRuns(DeleteAttempts(DeleteSchedules(DetachTasks(db, p), p), p), p);
            var owners := DeleteAgents(DeleteSessions(DeleteTasks(DeleteConversations(work, p), p), p), p);
            WithoutProject(DeleteProjectRows(owners, p), p) == Finished(db, p)
  {
    var work := DeleteRuns(DeleteAttempts(DeleteSchedules(DetachTasks(db, p), p), p), p);
    var owners := DeleteAgents(DeleteSessions(DeleteTasks(DeleteConversations(work, p), p), p), p);
    WorkStatements(db, p);
    OwnerStatements(work, p);
    RowStatements(owners, p);
    DetachingKeepsOwners(db, p);
    RunTables(db, owners, p);
  }

  /** The run tables after all statements. */
  lemma RunTables(db: Tables, owners: Tables, p: Id)
    requires var first := RunsOf(db, p);
             var second := RunsFrom(db.runs - first, TasksOf(db.tasks, p));
             var kept := WithoutRuns(WithoutRuns(db, first), second);
             && owners.runs == kept.runs && owners.steps == kept.steps && owners.bindings == kept.bindings
             && owners.workflows == db.workflows
    ensures var kept := WithoutRuns(owners, RunsUsing(owners.runs, WorkflowsOf(owners.workflows, p)));
            && ReleasedRuns(kept.runs, p) == db.runs - RunsGone(db, p)
            && kept.steps == StepsOutside(db.steps, RunsGone(db, p))
            && BindingsOutside(kept.bindings, p) == KeptBindings(db.bindings, RunsGone(db, p), p)
  {
    var first := RunsOf(db, p);
    var second := RunsFrom(db.runs - first, TasksOf(db.tasks, p));
    RunsGoInStages(db, p);
    WithoutRunsTwice(db, first, second);
    WithoutRunsTwice(db, first + second, RunsUsing(db.runs - first - second, WorkflowsOf(db.workflows, p)));
    NothingToRelease(db, p);
    assert db.runs - first - second == db.runs - (first + second);
  }

  /** Everything the Project owned is gone; everything else keeps its Project. */
  lemma FinishRemovesExactlyTheProject(db: Tables, p: Id)
    ensures var db' := Finished(db, p);
            && db'.agents.Keys == (set a | a in db.agents && !AgentIn(db, a, p))
            && db'.conversations.Keys == (set c | c in db.conversations && !ConversationIn(db, c, p))
            && db'.tasks.Keys == (set t | t in db.tasks && !TaskIn(db, t, p))
            && (forall a :: a in db'.agents ==> db'.agents[a] == db.agents[a])
            && (forall c :: c in db'.conversations ==> db'.conversations[c] == db.conversations[c])
            && (forall t :: t in db'.tasks ==>
                db'.tasks[t].project == db.tasks[t].project && db'.tasks[t].status == db.tasks[t].status)
  {
  }

  /** A surviving Task keeps a link exactly when the linked row survives. */
  lemma SurvivingLinks(db: Tables, p: Id, t: Id)
    requires t in Finished(db, p).tasks
    ensures var db' := Finished(db, p); var task, task' := db.tasks[t], db'.tasks[t];
            && task'.agent == (if task.agent.Some? && AgentIn(db, task.agent.value, p) then None else task.agent)
            && task'.conversation ==
               (if OptionalConversationIn(db, task.conversation, p) then None else task.conversation)
            && task'.parent == (if OptionalTaskIn(db, task.parent, p) then None else task.parent)
  {
  }

  /** No surviving Task or participant names anything that was removed; no surviving run names a
      removed Project, Task, Conversation or workflow; no surviving step or binding names a removed
      run. What a step's Task and a binding's Agent name is `StepsLeftBehindIff` and
      `BindingsLeftBehindIff`. */
  lemma NoLinkToRemoved(db: Tables, p: Id)
    ensures var db' := Finished(db, p);
            && (forall t :: t in db'.tasks ==>
                  && (db'.tasks[t].agent.Some? ==> !AgentIn(db, db'.tasks[t].agent.value, p))
                  && (db'.tasks[t].conversation.Some? ==> !ConversationIn(db, db'.tasks[t].conversation.value, p))
                  && (db'.tasks[t].parent.Some? ==> !TaskIn(db, db'.tasks[t].parent.value, p)))
            && (forall m :: m in db'.participants ==> !ConversationIn(db, m.0, p) && !AgentIn(db, m.1, p))
            && (forall x :: x in db'.runs ==>
                  && db'.runs[x].project != Some(p) && !OptionalTaskIn(db, db'.runs[x].sourceTask, p)
                  && !OptionalConversationIn(db, db'.runs[x].conversation, p)
                  && (db'.runs[x].workflow in db.workflows ==> db'.runs[x].workflow in db'.workflows))
            && (forall s :: s in db'.steps && s.0 in db.runs ==> s.0 in db'.runs)
            && (forall b :: b in db'.bindings ==> b.project != p && (b.run in db.runs ==> b.run in db'.runs))
  {
  }

  /** Steps keep their Task without a foreign key: none is left naming a removed Task exactly when
      every step of the Project's Tasks belongs to a run that goes. */
  lemma StepsLeftBehindIff(db: Tables, p: Id)
    ensures (forall s :: s in Finished(db, p).steps ==> !TaskIn(db, s.1, p)) <==>
            (forall s :: s in db.steps && TaskIn(db, s.1, p) ==> s.0 in RunsGone(db, p))
  {
    var db' := Finished(db, p);
    assert forall s :: s in db'.steps <==> s in db.steps && s.0 !in RunsGone(db, p);
  }

  /** Bindings keep their Agent as a snapshot: none is left naming a removed Agent exactly when every
      binding of the Project's Agents is the Project's own or belongs to a run that goes. */
  lemma BindingsLeftBehindIff(db: Tables, p: Id)
    ensures (forall b :: b in Finished(db, p).bindings ==> !AgentIn(db, b.agent, p)) <==>
            (forall b :: b in db.bindings && AgentIn(db, b.agent, p) ==> b.project == p || b.run in RunsGone(db, p))
  {
    var db' := Finished(db, p);
    assert forall b :: b in db'.bindings <==> b in db.bindings && b.run !in RunsGone(db, p) && b.project != p;
  }

  /** A run of another Project outlives the Task and the Agent it once used. */
  lemma RunOutlivesTaskAndAgent(db: Tables, p: Id, q: Id, r: Id, t: Id, a: Id, run: Run)
    requires p != q && db.runs == map[r := run] && run.project == Some(q) && run.conversation.None?
             && run.sourceTask.None?
    requires run.workflow !in db.workflows || db.workflows[run.workflow] != Some(p)
    requires (r, t) in db.steps && TaskIn(db, t, p) && Binding(r, a, q) in db.bindings && AgentIn(db, a, p)
    ensures var db' := Finished(db, p);
            && (r, t) in db'.steps && t !in db'.tasks
            && Binding(r, a, q) in db'.bindings && a !in db'.agents
  {
    assert r !in RunsGone(db, p);
  }

  /** Removing a Project keeps the boundary and leaves no dangling link. */
  lemma FinishKeepsBoundary(db: Tables, p: Id)
    requires Boundary(db)
    ensures Boundary(Finished(db, p)) && (NoDangling(db) ==> NoDangling(Finished(db, p)))
  {
    var db' := Finished(db, p);
    FinishRemovesExactlyTheProject(db, p);
    forall m | m in db'.participants && m.0 in db'.conversations && m.1 in db'.agents
      ensures db'.conversations[m.0].project == db'.agents[m.1].project
    {
      assert db.conversations[m.0].project == db.agents[m.1].project;
    }
    forall m | m in db'.participants && NoDangling(db) ensures m.0 in db'.conversations && m.1 in db'.agents {
      assert m.0 in db.conversations && m.1 in db.agents;
    }
    forall t | t in db'.tasks
      ensures TaskAgrees(db', db'.tasks[t]) && (NoDangling(db) ==> TaskResolves(db', db'.tasks[t])) {
      SurvivorAgrees(db, p, t);
    }
  }

  lemma SurvivorAgrees(db: Tables, p: Id, t: Id)
    requires Boundary(db) && t in Finished(db, p).tasks
    ensures var db' := Finished(db, p);
            TaskAgrees(db', db'.tasks[t]) && (NoDangling(db) ==> TaskResolves(db', db'.tasks[t]))
  {
    FinishRemovesExactlyTheProject(db, p);
    SurvivingLinks(db, p, t);
    assert TaskAgrees(db, db.tasks[t]);
    assert NoDangling(db) ==> TaskResolves(db, db.tasks[t]);
  }

  /** Removing one Project leaves the ownership and the quiet of any other. */
  lemma FinishKeepsOthers(db: Tables, p: Id, q: Id)
    requires p != q
    ensures var db' := Finished(db, p);
            SameOwned(db, db', q) && (Quiet(db, q) ==> Quiet(db', q))
  {
    FinishKeepsOwned(db, p, q);
    FinishShrinks(db, p);
    if Quiet(db, q) {
      FewerRowsStayQuiet(db, Finished(db, p), q);
    }
  }

  lemma FinishKeepsOwned(db: Tables, p: Id, q: Id)
    requires p != q
    ensures SameOwned(db, Finished(db, p), q)
  {
    FinishRemovesExactlyTheProject(db, p);
  }

  lemma FinishShrinks(db: Tables, p: Id)
    ensures var db' := Finished(db, p);
            && Submap(db'.attempts, db.attempts) && Submap(db'.turns, db.turns) && Submap(db'.runs, db.runs)
            && Submap(db'.schedules, db.schedules) && Submap(db'.sessions, db.sessions)
            && db'.steps <= db.steps && db'.bindings <= db.bindings
  {
  }

  // ---- Immediate deletion ----

  /** `delete` removes only a Project nothing belongs to. */
  predicate OwnsNothing(db: Tables, p: Id) {
    && Vacant(db, p)
    && (forall n | n in db.notes :: db.notes[n] != p)
    && (forall x | x in db.runs :: !RunIn(db, x, db.runs[x], p))
    && (forall x | x in db.schedules :: !ScheduleIn(db, db.schedules[x], p))
    && (forall s | s in db.syncStates :: s.0 != p)
    && (forall w | w in db.projectWorkflows :: w.0 != p)
  }

  function DeleteDecision(db: Tables, p: Id): Result {
    if p !in db.projects then Refused(ProjectNotFound)
    else if db.projects[p].deletionStartedAt.Some? then Refused(ProjectDeleting)
    else if !OwnsNothing(db, p) then Refused(NotEmpty)
    else Ok
  }

  /** An immediate deletion takes the row and its leftover bindings, and touches nothing else. */
  lemma DeleteTouchesNothingElse(db: Tables, p: Id)
    requires DeleteDecision(db, p).Ok?
    ensures WithoutProject(db, p) == db.(projects := db.projects - {p}, bindings := BindingsOutside(db.bindings, p))
    ensures References(db) ==> References(WithoutProject(db, p))
  {
    NothingElseToDelete(db, p);
  }

  lemma NothingElseToDelete(db: Tables, p: Id)
    requires DeleteDecision(db, p).Ok?
    ensures WithoutProject(db, p) == db.(projects := db.projects - {p}, bindings := BindingsOutside(db.bindings, p))
  {
    NoWorkflowsToDelete(db, p);
    assert forall x :: x in db.runs ==> !RunIn(db, x, db.runs[x], p);
    assert ReleasedRuns(db.runs, p) == db.runs;
    assert RowsOutside(db.syncStates, p) == db.syncStates && RowsOutside(db.projectWorkflows, p) == db.projectWorkflows;
  }
}

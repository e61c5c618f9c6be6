/** The tables of the Project boundary: who owns what, which work is live, and which links
    must agree on their Project. */
module ProjectTables {
  import opened Options

  type Id = string
  type Time = int

  datatype Project = Project(deletionStartedAt: Option<Time>)
  datatype Agent = Agent(project: Option<Id>, stopped: bool)
  datatype Conversation = Conversation(project: Option<Id>)
  datatype TaskStatus = Open | Completed | Cancelled
  datatype Task = Task(
    agent: Option<Id>, conversation: Option<Id>, parent: Option<Id>, project: Option<Id>, status: TaskStatus)

  datatype AttemptStatus =
    | AttemptQueued | Preparing | Running | WaitingForInput | Review
    | AttemptCompleted | AttemptFailed | AttemptCancelled | Interrupted
  /** `session` names a logical session, whose id is historically the Agent's id. */
  datatype Attempt = Attempt(session: Id, task: Option<Id>, status: AttemptStatus, endedAt: Option<Time>)
  datatype Session = Session(agent: Id)
  datatype TurnStatus = TurnQueued | TurnRunning | TurnCompleted | TurnFailed | TurnCancelled
  datatype Turn = Turn(conversation: Id, agent: Id, status: TurnStatus, endedAt: Option<Time>)
  datatype RunStatus = RunRunning | RunWaiting | RunCompleted | RunFailed | RunCancelled
  /** A workflow instance; `sourceTask` is the Task a default workflow was attached to. */
  datatype Run = Run(
    workflow: Id, sourceTask: Option<Id>, project: Option<Id>, conversation: Option<Id>,
    status: RunStatus, endedAt: Option<Time>)
  datatype Binding = Binding(run: Id, agent: Id, project: Id)
  datatype Schedule = Schedule(agent: Id, task: Option<Id>, conversation: Option<Id>, enabled: bool)

  datatype Tables = Tables(
    projects: map<Id, Project>,
    agents: map<Id, Agent>,
    conversations: map<Id, Conversation>,
    participants: set<(Id, Id)>, // (Conversation, Agent) rows of type 'agent'
    tasks: map<Id, Task>,
    notes: map<Id, Id>,
    workflows: map<Id, Option<Id>>, // the Project a definition belongs to, if any
    projectWorkflows: set<(Id, Id)>, // (Project, workflow) rows of `project_workflows`
    syncStates: set<(Id, Id)>, // (Project, the rest of the key) rows of `project_sync_state`
    sessions: map<Id, Session>,
    attempts: map<Id, Attempt>,
    turns: map<Id, Turn>,
    runs: map<Id, Run>,
    steps: set<(Id, Id)>, // (workflow run, Task) of step executions
    bindings: set<Binding>,
    schedules: map<Id, Schedule>)

  datatype Refusal =
    | ProjectNotFound | ProjectDeleting | AgentNotFound | LiveTurn | ActiveWorkflow
    | SharedConversation | LinkedTaskSplit | HierarchySplit | Unacknowledged | NotEmpty
    | ConversationNotFound | TaskNotFound | WorkflowNotFound | ProjectMismatch | ProjectlessParent

  datatype Result = Ok | Refused(reason: Refusal)

  // ---- Ownership ----

  predicate AgentIn(db: Tables, a: Id, p: Id) {
    a in db.agents && db.agents[a].project == Some(p)
  }

  predicate ConversationIn(db: Tables, c: Id, p: Id) {
    c in db.conversations && db.conversations[c].project == Some(p)
  }

  predicate TaskIn(db: Tables, t: Id, p: Id) {
    t in db.tasks && db.tasks[t].project == Some(p)
  }

  predicate OptionalConversationIn(db: Tables, c: Option<Id>, p: Id) {
    c.Some? && ConversationIn(db, c.value, p)
  }

  predicate OptionalTaskIn(db: Tables, t: Option<Id>, p: Id) {
    t.Some? && TaskIn(db, t.value, p)
  }

  predicate AttemptIn(db: Tables, a: Attempt, p: Id) {
    || OptionalTaskIn(db, a.task, p)
    || (a.session in db.sessions && AgentIn(db, db.sessions[a.session].agent, p))
  }

  predicate RunIn(db: Tables, id: Id, r: Run, p: Id) {
    || r.project == Some(p)
    || OptionalConversationIn(db, r.conversation, p)
    || (r.project.None? && r.conversation.None? && exists s | s in db.steps :: s.0 == id && TaskIn(db, s.1, p))
    || (r.project.None? && r.conversation.None? && exists b | b in db.bindings :: b.run == id && b.project == p)
  }

  predicate ScheduleIn(db: Tables, s: Schedule, p: Id) {
    AgentIn(db, s.agent, p) || OptionalTaskIn(db, s.task, p) || OptionalConversationIn(db, s.conversation, p)
  }

  /** The same Agents, Conversations and Tasks belong to the Project. */
  ghost predicate SameOwned(db: Tables, db': Tables, p: Id) {
    && (forall a :: AgentIn(db', a, p) <==> AgentIn(db, a, p))
    && (forall c :: ConversationIn(db', c, p) <==> ConversationIn(db, c, p))
    && (forall t :: TaskIn(db', t, p) <==> TaskIn(db, t, p))
  }

  // ---- Live work ----

  predicate Terminal(s: AttemptStatus) {
    s in {AttemptCompleted, AttemptFailed, AttemptCancelled, Interrupted}
  }

  predicate LiveTurnStatus(s: TurnStatus) { s in {TurnQueued, TurnRunning} }

  predicate LiveRunStatus(s: RunStatus) { s in {RunRunning, RunWaiting} }

  /** No attempt, Conversation turn or workflow run of the Project can still do work, and none
      of its schedules can start more. */
  ghost predicate Quiet(db: Tables, p: Id) {
    && (forall x :: x in db.attempts && AttemptIn(db, db.attempts[x], p) ==> Terminal(db.attempts[x].status))
    && (forall x :: x in db.turns && ConversationIn(db, db.turns[x].conversation, p) ==>
        !LiveTurnStatus(db.turns[x].status))
    && (forall x :: x in db.runs && RunIn(db, x, db.runs[x], p) ==> !LiveRunStatus(db.runs[x].status))
    && (forall x :: x in db.schedules && ScheduleIn(db, db.schedules[x], p) ==> !db.schedules[x].enabled)
  }

  ghost predicate Submap<V>(m: map<Id, V>, n: map<Id, V>) {
    forall k :: k in m ==> k in n && m[k] == n[k]
  }

  /** Removing work, sessions, steps or bindings wakes nothing. */
  lemma FewerRowsStayQuiet(db: Tables, db': Tables, p: Id)
    requires Quiet(db, p) && SameOwned(db, db', p)
    requires Submap(db'.attempts, db.attempts) && Submap(db'.turns, db.turns) && Submap(db'.runs, db.runs)
    requires Submap(db'.schedules, db.schedules) && Submap(db'.sessions, db.sessions)
    requires db'.steps <= db.steps && db'.bindings <= db.bindings
    ensures Quiet(db', p)
  {
    forall x | x in db'.attempts ensures AttemptIn(db', db'.attempts[x], p) ==> AttemptIn(db, db.attempts[x], p) {}
    forall x | x in db'.runs ensures RunIn(db', x, db'.runs[x], p) ==> RunIn(db, x, db.runs[x], p) {}
    forall x | x in db'.schedules ensures ScheduleIn(db', db'.schedules[x], p) ==> ScheduleIn(db, db.schedules[x], p) {}
  }

  // ---- The boundary ----

  /** Linked rows agree on their optional Project. */
  ghost predicate Boundary(db: Tables) {
    && (forall m :: m in db.participants && m.0 in db.conversations && m.1 in db.agents ==>
                      db.conversations[m.0].project == db.agents[m.1].project)
    && (forall t :: t in db.tasks ==> TaskAgrees(db, db.tasks[t]))
  }

  ghost predicate TaskAgrees(db: Tables, t: Task) {
    && (t.agent.Some? && t.agent.value in db.agents ==> t.project == db.agents[t.agent.value].project)
    && (t.conversation.Some? && t.conversation.value in db.conversations ==>
        t.project == db.conversations[t.conversation.value].project)
    && (t.parent.Some? && t.parent.value in db.tasks ==> t.project == db.tasks[t.parent.value].project)
  }

  /** Tasks and participant rows name existing rows. */
  ghost predicate NoDangling(db: Tables) {
    && (forall m :: m in db.participants ==> m.0 in db.conversations && m.1 in db.agents)
    && (forall t :: t in db.tasks ==> TaskResolves(db, db.tasks[t]))
  }

  ghost predicate TaskResolves(db: Tables, t: Task) {
    && (t.agent.Some? ==> t.agent.value in db.agents)
    && (t.conversation.Some? ==> t.conversation.value in db.conversations)
    && (t.parent.Some? ==> t.parent.value in db.tasks)
  }

  lemma SameRowsSameBoundary(db: Tables, db': Tables)
    requires db'.agents == db.agents && db'.conversations == db.conversations
    requires db'.participants == db.participants && db'.tasks == db.tasks
    ensures Boundary(db) ==> Boundary(db')
    ensures NoDangling(db) ==> NoDangling(db')
  {
    if Boundary(db) {
      forall t | t in db.tasks ensures TaskAgrees(db', db.tasks[t]) { assert TaskAgrees(db, db.tasks[t]); }
    }
    if NoDangling(db) {
      forall t | t in db.tasks ensures TaskResolves(db', db.tasks[t]) { assert TaskResolves(db, db.tasks[t]); }
    }
  }

  /** Owners and notes name existing Projects. */
  ghost predicate References(db: Tables) {
    && (forall a :: a in db.agents && db.agents[a].project.Some? ==> db.agents[a].project.value in db.projects)
    && (forall c :: c in db.conversations && db.conversations[c].project.Some? ==>
        db.conversations[c].project.value in db.projects)
    && (forall t :: t in db.tasks && db.tasks[t].project.Some? ==> db.tasks[t].project.value in db.projects)
    && (forall n :: n in db.notes ==> db.notes[n] in db.projects)
  }

  // ---- Admission ----

  /** `ensure_project_accepts_work`. */
  function AcceptsWork(db: Tables, p: Id): (r: Result)
    ensures r.Ok? <==> p in db.projects && db.projects[p].deletionStartedAt.None?
  {
    if p !in db.projects then Refused(ProjectNotFound)
    else if db.projects[p].deletionStartedAt.Some? then Refused(ProjectDeleting)
    else Ok
  }
}

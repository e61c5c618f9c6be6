/** Transactions that attach new work to a Project: Tasks, Conversation turns and workflow runs.
    Each asks first whether the Project it resolves to accepts work. */
module GuardedAttachments {
  import opened Options
  import opened ProjectTables

  // ---- Tasks ----

  /** What a new Task names; `project` is the Project its context asks for. */
  datatype TaskRequest = TaskRequest(agent: Option<Id>, conversation: Option<Id>, parent: Option<Id>,
                                     project: Option<Id>)

  function AgentProject(db: Tables, a: Option<Id>): Option<Id> {
    if a.Some? && a.value in db.agents then db.agents[a.value].project else None
  }

  function ConversationProject(db: Tables, c: Option<Id>): Option<Id> {
    if c.Some? && c.value in db.conversations then db.conversations[c.value].project else None
  }

  function ParentProject(db: Tables, t: Option<Id>): Option<Id> {
    if t.Some? && t.value in db.tasks then db.tasks[t.value].project else None
  }

  function Candidates(db: Tables, req: TaskRequest): seq<Option<Id>> {
    [ConversationProject(db, req.conversation), req.project, AgentProject(db, req.agent), ParentProject(db, req.parent)]
  }

  function FirstProject(candidates: seq<Option<Id>>): Option<Id> {
    if candidates == [] then None
    else if candidates[0].Some? then candidates[0]
    else FirstProject(candidates[1..])
  }

  /** The candidates that name a Project name the same one. */
  predicate Agreeing(candidates: seq<Option<Id>>) {
    forall i, j | 0 <= i < |candidates| && 0 <= j < |candidates| :: AgreeAt(candidates, i, j)
  }

  predicate AgreeAt(candidates: seq<Option<Id>>, i: nat, j: nat)
    requires i < |candidates| && j < |candidates|
  {
    candidates[i].Some? && candidates[j].Some? ==> candidates[i] == candidates[j]
  }

  lemma {:induction false} FirstProjectIsNamed(candidates: seq<Option<Id>>, i: nat)
    requires i < |candidates| && candidates[i].Some? && forall j :: 0 <= j < i ==> candidates[j].None?
    ensures FirstProject(candidates) == candidates[i]
    decreases i
  {
    if i > 0 {
      FirstProjectIsNamed(candidates[1..], i - 1);
    }
  }

  lemma {:induction false} NoProjectNamed(candidates: seq<Option<Id>>)
    requires forall j :: 0 <= j < |candidates| ==> candidates[j].None?
    ensures FirstProject(candidates) == None
  {
    if candidates != [] {
      NoProjectNamed(candidates[1..]);
    }
  }

  /** `consistent_project_id`: the one Project the candidates name, or a conflict. */
  method ConsistentProject(candidates: seq<Option<Id>>) returns (agree: bool, project: Option<Id>)
    ensures agree <==> Agreeing(candidates)
    ensures agree ==> project == FirstProject(candidates)
  {
    project := None;
    ghost var first: nat := 0;
    for i := 0 to |candidates|
      invariant project.None? ==> forall j :: 0 <= j < i ==> candidates[j].None?
      invariant project.Some? ==>
        && first < i && candidates[first] == project
        && (forall j :: 0 <= j < first ==> candidates[j].None?)
        && (forall j :: 0 <= j < i && candidates[j].Some? ==> candidates[j] == project)
    {
      if candidates[i].Some? {
        if project.Some? && candidates[i] != project {
          assert !AgreeAt(candidates, first, i);
          return false, project;
        }
        if project.None? {
          project, first := candidates[i], i;
        }
      }
    }
    if project.Some? {
      FirstProjectIsNamed(candidates, first);
    } else {
      NoProjectNamed(candidates);
    }
    agree := true;
  }

  function TaskProject(db: Tables, req: TaskRequest): Option<Id> {
    FirstProject(Candidates(db, req))
  }

  /** Work without a Project is not guarded. */
  function AcceptsWorkFor(db: Tables, project: Option<Id>): Result {
    if project.Some? then AcceptsWork(db, project.value) else Ok
  }

  /** The decision of `create_task`, in the order of its checks. */
  function TaskDecision(db: Tables, req: TaskRequest): Result {
    if req.conversation.Some? && req.conversation.value !in db.conversations then Refused(ConversationNotFound)
    else if req.agent.Some? && req.agent.value !in db.agents then Refused(AgentNotFound)
    else if req.parent.Some? && req.parent.value !in db.tasks then Refused(TaskNotFound)
    else if !Agreeing(Candidates(db, req)) then Refused(ProjectMismatch)
    else if AcceptsWorkFor(db, TaskProject(db, req)).Refused? then AcceptsWorkFor(db, TaskProject(db, req))
    else if req.parent.Some? && ParentProject(db, req.parent).None? && TaskProject(db, req).Some?
    then Refused(ProjectlessParent)
    else Ok
  }

  function WithTask(db: Tables, t: Id, req: TaskRequest): Tables {
    db.(tasks := db.tasks[t := Task(req.agent, req.conversation, req.parent, TaskProject(db, req), Open)])
  }

  /** `create_task` with a fresh id. */
  function TaskCreated(db: Tables, t: Id, req: TaskRequest): (after: Tables)
    ensures after == db.(tasks := after.tasks)
  {
    if t !in db.tasks && TaskDecision(db, req).Ok? then WithTask(db, t, req) else db
  }

  class TaskBoard {
    var tables: Tables

    constructor (initial: Tables)
      ensures tables == initial
    {
      tables := initial;
    }

    method CreateTask(t: Id, req: TaskRequest) returns (result: Result)
      requires t !in tables.tasks
      modifies this
      ensures result == TaskDecision(old(tables), req)
      ensures tables == TaskCreated(old(tables), t, req)
    {
      if req.conversation.Some? && req.conversation.value !in tables.conversations {
        return Refused(ConversationNotFound);
      }
      if req.agent.Some? && req.agent.value !in tables.agents {
        return Refused(AgentNotFound);
      }
      if req.parent.Some? && req.parent.value !in tables.tasks {
        return Refused(TaskNotFound);
      }
      var agree, project := ConsistentProject(Candidates(tables, req));
      if !agree {
        return Refused(ProjectMismatch);
      }
      result := AcceptsWorkFor(tables, project);
      if result.Refused? {
        return;
      }
      if req.parent.Some? && ParentProject(tables, req.parent).None? && project.Some? {
        return Refused(ProjectlessParent);
      }
      tables := tables.(tasks := tables.tasks[t := Task(req.agent, req.conversation, req.parent, project, Open)]);
    }
  }

  // ---- What a new Task does to the boundary ----

  /** The Agent and the Conversation of a Task in a Project have a Project themselves. */
  predicate LinksHoused(db: Tables, req: TaskRequest) {
    TaskProject(db, req).Some? ==>
      && (req.agent.Some? ==> AgentProject(db, req.agent).Some?)
      && (req.conversation.Some? ==> ConversationProject(db, req.conversation).Some?)
  }

  lemma CandidatesNameTheProject(db: Tables, req: TaskRequest)
    requires Agreeing(Candidates(db, req))
    ensures ConversationProject(db, req.conversation).Some? ==>
              ConversationProject(db, req.conversation) == TaskProject(db, req)
    ensures req.project.Some? ==> req.project == TaskProject(db, req)
    ensures AgentProject(db, req.agent).Some? ==> AgentProject(db, req.agent) == TaskProject(db, req)
    ensures ParentProject(db, req.parent).Some? ==> ParentProject(db, req.parent) == TaskProject(db, req)
  {
    var all := Candidates(db, req);
    NamedIsFirst(all, 0);
    NamedIsFirst(all, 1);
    NamedIsFirst(all, 2);
    NamedIsFirst(all, 3);
  }

  lemma NamedIsFirst(candidates: seq<Option<Id>>, k: nat)
    requires Agreeing(candidates) && k < |candidates|
    ensures candidates[k].Some? ==> candidates[k] == FirstProject(candidates)
  {
    var i := FirstNamed(candidates);
    assert i < |candidates| ==> AgreeAt(candidates, i, k);
  }

  lemma {:induction false} FirstNamed(candidates: seq<Option<Id>>) returns (i: nat)
    ensures i <= |candidates| && forall j :: 0 <= j < i ==> candidates[j].None?
    ensures i < |candidates| ==> candidates[i].Some? && FirstProject(candidates) == candidates[i]
  {
    i := 0;
    if candidates != [] && candidates[0].None? {
      i := FirstNamed(candidates[1..]);
      i := i + 1;
      assert forall j :: 1 <= j < i ==> candidates[j] == candidates[1..][j - 1];
    }
  }

  lemma NewTaskAgrees(db: Tables, t: Id, req: TaskRequest)
    requires TaskDecision(db, req).Ok? && t !in db.tasks
    ensures var db' := WithTask(db, t, req); TaskAgrees(db', db'.tasks[t]) <==> LinksHoused(db, req)
  {
    CandidatesNameTheProject(db, req);
  }

  lemma OldTaskAgrees(db: Tables, t: Id, req: TaskRequest, u: Id)
    requires NoDangling(db) && t !in db.tasks && u in db.tasks && TaskAgrees(db, db.tasks[u])
    ensures TaskAgrees(WithTask(db, t, req), db.tasks[u])
  {
    assert TaskResolves(db, db.tasks[u]);
  }

  /** A new Task keeps the boundary exactly when it is not put into a Project past a projectless
      Agent or Conversation of its own. */
  lemma NewTaskKeepsBoundaryIff(db: Tables, t: Id, req: TaskRequest)
    requires Boundary(db) && NoDangling(db) && TaskDecision(db, req).Ok? && t !in db.tasks
    ensures Boundary(WithTask(db, t, req)) <==> LinksHoused(db, req)
  {
    var db' := WithTask(db, t, req);
    NewTaskAgrees(db, t, req);
    assert t in db'.tasks;
    forall u | u in db'.tasks && u != t ensures TaskAgrees(db', db'.tasks[u]) {
      assert TaskAgrees(db, db.tasks[u]);
      OldTaskAgrees(db, t, req, u);
    }
  }

  lemma NewTaskResolves(db: Tables, t: Id, req: TaskRequest)
    requires NoDangling(db) && References(db) && TaskDecision(db, req).Ok? && t !in db.tasks
    ensures NoDangling(WithTask(db, t, req)) && References(WithTask(db, t, req))
  {
    var db' := WithTask(db, t, req);
    forall u | u in db'.tasks ensures TaskResolves(db', db'.tasks[u]) {
      assert u != t ==> TaskResolves(db, db.tasks[u]);
    }
  }

  // ---- The same, read off the tables ----

  /** A request whose Agent, Conversation and parent exist and name no Project but `project`, which at
      least one of them or the request itself names if there is one: the Task goes there, provided the
      Project takes work and the parent, if any, is in it. */
  lemma TaskAdmitted(db: Tables, req: TaskRequest, project: Option<Id>)
    requires req.agent.Some? ==>
               req.agent.value in db.agents && db.agents[req.agent.value].project in {None, project}
    requires req.conversation.Some? ==>
               && req.conversation.value in db.conversations
               && db.conversations[req.conversation.value].project in {None, project}
    requires req.parent.Some? ==>
               req.parent.value in db.tasks && db.tasks[req.parent.value].project in {None, project}
    requires req.project in {None, project}
    requires project.Some? ==>
               || req.project == project
               || (req.agent.Some? && db.agents[req.agent.value].project == project)
               || (req.conversation.Some? && db.conversations[req.conversation.value].project == project)
               || (req.parent.Some? && db.tasks[req.parent.value].project == project)
    ensures TaskProject(db, req) == project
    ensures TaskDecision(db, req).Ok? <==>
            project.Some? ==>
              && project.value in db.projects && db.projects[project.value].deletionStartedAt.None?
              && (req.parent.Some? ==> db.tasks[req.parent.value].project == project)
  {
    var all := Candidates(db, req);
    assert |all| == 4 && all[0] in {None, project} && all[1] in {None, project};
    assert all[2] in {None, project} && all[3] in {None, project};
    forall i, j | 0 <= i < |all| && 0 <= j < |all| ensures AgreeAt(all, i, j) {}
    NamedIsFirst(all, 0);
    NamedIsFirst(all, 1);
    NamedIsFirst(all, 2);
    NamedIsFirst(all, 3);
    if project.None? {
      NoProjectNamed(all);
    }
  }

  /** Two of them that name different Projects are refused. */
  lemma MixedTaskRefused(db: Tables, req: TaskRequest)
    requires req.agent.Some? && req.agent.value in db.agents && db.agents[req.agent.value].project.Some?
    requires req.conversation.Some? ==> req.conversation.value in db.conversations
    requires req.parent.Some? ==> req.parent.value in db.tasks
    requires || (req.project.Some? && req.project != db.agents[req.agent.value].project)
             || (req.conversation.Some? && db.conversations[req.conversation.value].project.Some?
                 && db.conversations[req.conversation.value].project != db.agents[req.agent.value].project)
             || (req.parent.Some? && db.tasks[req.parent.value].project.Some?
                 && db.tasks[req.parent.value].project != db.agents[req.agent.value].project)
    ensures TaskDecision(db, req) == Refused(ProjectMismatch)
  {
    var all := Candidates(db, req);
    assert !AgreeAt(all, 0, 2) || !AgreeAt(all, 1, 2) || !AgreeAt(all, 3, 2);
  }

  // ---- Turns ----

  function TurnDecision(db: Tables, c: Id): Result {
    if c !in db.conversations then Refused(ConversationNotFound) else AcceptsWorkFor(db, db.conversations[c].project)
  }

  predicate HasOpenTurn(db: Tables, c: Id, a: Id) {
    exists y | y in db.turns ::
      db.turns[y].conversation == c && db.turns[y].agent == a && LiveTurnStatus(db.turns[y].status)
  }

  /** A participant without a queued or running turn in the Conversation gets a queued one. */
  function TurnQueuedFor(db: Tables, x: Id, c: Id, a: Id): (after: Tables)
    ensures after == db.(turns := after.turns)
  {
    if x !in db.turns && TurnDecision(db, c).Ok? && (c, a) in db.participants && !HasOpenTurn(db, c, a)
    then db.(turns := db.turns[x := Turn(c, a, TurnQueued, None)])
    else db
  }

  /** A turn is queued iff the Conversation exists, its Project if any takes work, the Agent takes part
      and has no queued or running turn there; nothing else ever changes. */
  lemma TurnQueuedIff(db: Tables, x: Id, c: Id, a: Id)
    requires x !in db.turns
    ensures TurnQueuedFor(db, x, c, a) ==
            if && c in db.conversations
               && (db.conversations[c].project.Some? ==>
                     && db.conversations[c].project.value in db.projects
                     && db.projects[db.conversations[c].project.value].deletionStartedAt.None?)
               && (c, a) in db.participants
               && (forall y :: y in db.turns && db.turns[y].conversation == c && db.turns[y].agent == a ==>
                     db.turns[y].status != TurnQueued && db.turns[y].status != TurnRunning)
            then db.(turns := db.turns[x := Turn(c, a, TurnQueued, None)])
            else db
  {
  }

  /** A turn is queued only in a Project that accepts work, so a marked one stays quiet. */
  lemma NewTurnKeepsQuiet(db: Tables, x: Id, c: Id, a: Id, d: Id)
    requires Quiet(db, d) && AcceptsWork(db, d).Refused?
    ensures Quiet(TurnQueuedFor(db, x, c, a), d)
  {
    var db' := TurnQueuedFor(db, x, c, a);
    forall y | y in db'.attempts ensures AttemptIn(db', db'.attempts[y], d) ==> AttemptIn(db, db.attempts[y], d) {}
    forall y | y in db'.runs ensures RunIn(db', y, db'.runs[y], d) ==> RunIn(db, y, db.runs[y], d) {}
    forall y | y in db'.schedules
      ensures ScheduleIn(db', db'.schedules[y], d) ==> ScheduleIn(db, db.schedules[y], d)
    {
    }
  }

  // ---- Workflow runs ----

  datatype RunRequest = RunRequest(
    workflow: Id, project: Option<Id>, conversation: Option<Id>, sourceTask: Option<Id>, agents: seq<Id>)

  function RunProject(db: Tables, req: RunRequest): Option<Id> {
    if req.project.Some? then req.project else ConversationProject(db, req.conversation)
  }

  /** Bound Agents belong to the run's Project; without one, their own Projects must accept work. */
  function AgentsDecision(db: Tables, project: Option<Id>, agents: seq<Id>): Result {
    if agents == [] then Ok
    else if agents[0] !in db.agents then Refused(AgentNotFound)
    else if project.Some? && db.agents[agents[0]].project != project then Refused(ProjectMismatch)
    else if project.None? && AcceptsWorkFor(db, db.agents[agents[0]].project).Refused?
    then AcceptsWorkFor(db, db.agents[agents[0]].project)
    else AgentsDecision(db, project, agents[1..])
  }

  function RunDecision(db: Tables, req: RunRequest): Result {
    var conversationProject := ConversationProject(db, req.conversation);
    if req.conversation.Some? && req.conversation.value !in db.conversations then Refused(ConversationNotFound)
    else if req.project.Some? && conversationProject.Some? && req.project != conversationProject
    then Refused(ProjectMismatch)
    else if AcceptsWorkFor(db, RunProject(db, req)).Refused? then AcceptsWorkFor(db, RunProject(db, req))
    else if AgentsDecision(db, RunProject(db, req), req.agents).Refused?
    then AgentsDecision(db, RunProject(db, req), req.agents)
    else if req.workflow !in db.workflows then Refused(WorkflowNotFound)
    else if req.sourceTask.Some? && req.sourceTask.value !in db.tasks then Refused(TaskNotFound)
    else Ok
  }

  function BindingsFor(db: Tables, x: Id, agents: seq<Id>): set<Binding> {
    set a | a in agents && a in db.agents && db.agents[a].project.Some? :: Binding(x, a, db.agents[a].project.value)
  }

  /** A run id that nothing refers to yet. */
  predicate FreshRun(db: Tables, x: Id) {
    x !in db.runs && (forall s | s in db.steps :: s.0 != x) && (forall b | b in db.bindings :: b.run != x)
  }

  /** A running instance with its Agent bindings; a run in a Project records the use of its workflow. */
  function RunStarted(db: Tables, x: Id, req: RunRequest): (after: Tables)
    ensures after == db.(runs := after.runs, bindings := after.bindings, projectWorkflows := after.projectWorkflows)
  {
    if FreshRun(db, x) && RunDecision(db, req).Ok? then
      var project := RunProject(db, req);
      db.(runs := db.runs[x := Run(req.workflow, req.sourceTask, project, req.conversation, RunRunning, None)],
          bindings := db.bindings + BindingsFor(db, x, req.agents),
          projectWorkflows := db.projectWorkflows + (if project.Some? then {(project.value, req.workflow)} else {}))
    else db
  }

  lemma {:induction false} BoundAgentsAccept(db: Tables, project: Option<Id>, agents: seq<Id>, a: Id)
    requires AgentsDecision(db, project, agents).Ok? && AcceptsWorkFor(db, project).Ok? && a in agents
    ensures a in db.agents && AcceptsWorkFor(db, db.agents[a].project).Ok?
  {
    if a != agents[0] {
      BoundAgentsAccept(db, project, agents[1..], a);
    }
  }

  lemma {:induction false} AgentsAdmittedIff(db: Tables, project: Option<Id>, agents: seq<Id>)
    ensures AgentsDecision(db, project, agents).Ok? <==>
            forall a :: a in agents ==>
              && a in db.agents
              && (project.Some? ==> db.agents[a].project == project)
              && (project.None? && db.agents[a].project.Some? ==>
                    && db.agents[a].project.value in db.projects
                    && db.projects[db.agents[a].project.value].deletionStartedAt.None?)
  {
    if agents != [] {
      AgentsAdmittedIff(db, project, agents[1..]);
      assert agents == [agents[0]] + agents[1..];
    }
  }

  /** A run starts iff what it names exists, the requested Project is its Conversation's, that Project if
      any takes work, and so do or are those of its Agents. */
  lemma RunAdmittedIff(db: Tables, req: RunRequest)
    ensures RunDecision(db, req).Ok? <==>
            && (req.conversation.Some? ==> req.conversation.value in db.conversations)
            && (req.project.Some? && req.conversation.Some? ==>
                  db.conversations[req.conversation.value].project in {None, req.project})
            && req.workflow in db.workflows && (req.sourceTask.Some? ==> req.sourceTask.value in db.tasks)
            && AgentsDecision(db, RunProject(db, req), req.agents).Ok?
            && (RunProject(db, req).Some? ==>
                  && RunProject(db, req).value in db.projects
                  && db.projects[RunProject(db, req).value].deletionStartedAt.None?)
    ensures RunDecision(db, req).Ok? ==>
            RunProject(db, req) ==
            if req.project.Some? then req.project
            else if req.conversation.Some? then db.conversations[req.conversation.value].project else None
  {
  }

  /** A started run is running, with a binding for each of its Agents that has a Project, and its Project
      records the use of the workflow. */
  lemma RunStartedRows(db: Tables, x: Id, req: RunRequest, b: Binding)
    requires x !in db.runs && RunDecision(db, req).Ok?
    requires (forall t :: (x, t) !in db.steps) && (forall a, p :: Binding(x, a, p) !in db.bindings)
    ensures var db' := RunStarted(db, x, req);
            && db'.runs ==
               db.runs[x := Run(req.workflow, req.sourceTask, RunProject(db, req), req.conversation, RunRunning, None)]
            && (b in db'.bindings <==>
                || b in db.bindings
                || (b.run == x && b.agent in req.agents && b.agent in db.agents
                    && db.agents[b.agent].project == Some(b.project)))
            && db'.projectWorkflows ==
               db.projectWorkflows
               + (if RunProject(db, req).Some? then {(RunProject(db, req).value, req.workflow)} else {})
  {
    assert FreshRun(db, x) by {
      forall s | s in db.steps ensures s.0 != x { assert s == (s.0, s.1); }
      forall c | c in db.bindings ensures c.run != x { assert c == Binding(c.run, c.agent, c.project); }
    }
    BindingsForIff(db, x, req.agents, b);
    assert RunStarted(db, x, req).bindings == db.bindings + BindingsFor(db, x, req.agents);
  }

  lemma BindingsForIff(db: Tables, x: Id, agents: seq<Id>, b: Binding)
    ensures b in BindingsFor(db, x, agents) <==>
            b.run == x && b.agent in agents && b.agent in db.agents && db.agents[b.agent].project == Some(b.project)
  {
    if b.run == x && b.agent in agents && b.agent in db.agents && db.agents[b.agent].project == Some(b.project) {
      assert b == Binding(x, b.agent, db.agents[b.agent].project.value);
    }
  }

  lemma NewRunIsElsewhere(db: Tables, x: Id, req: RunRequest, d: Id)
    requires AcceptsWork(db, d).Refused? && FreshRun(db, x) && RunDecision(db, req).Ok?
    ensures var db' := RunStarted(db, x, req); !RunIn(db', x, db'.runs[x], d)
  {
    var db' := RunStarted(db, x, req);
    forall b | b in db'.bindings && b.run == x ensures b.project != d {
      assert b in BindingsFor(db, x, req.agents);
      BoundAgentsAccept(db, RunProject(db, req), req.agents, b.agent);
    }
  }

  lemma OldRunsStay(db: Tables, x: Id, req: RunRequest, y: Id, d: Id)
    requires y in db.runs && FreshRun(db, x) && RunDecision(db, req).Ok?
    ensures var db' := RunStarted(db, x, req);
            db'.runs[y] == db.runs[y] && (RunIn(db', y, db'.runs[y], d) ==> RunIn(db, y, db.runs[y], d))
  {
    var db' := RunStarted(db, x, req);
    assert forall b :: b in db'.bindings && b.run == y ==> b in db.bindings;
  }

  /** A run starts only where work is accepted, so a marked Project stays quiet. */
  lemma NewRunKeepsQuiet(db: Tables, x: Id, req: RunRequest, d: Id)
    requires Quiet(db, d) && AcceptsWork(db, d).Refused?
    ensures Quiet(RunStarted(db, x, req), d)
  {
    if FreshRun(db, x) && RunDecision(db, req).Ok? {
      var db' := RunStarted(db, x, req);
      NewRunIsElsewhere(db, x, req, d);
      forall y | y in db'.runs && RunIn(db', y, db'.runs[y], d) ensures !LiveRunStatus(db'.runs[y].status) {
        if y != x {
          OldRunsStay(db, x, req, y, d);
        }
      }
      forall y | y in db'.attempts ensures AttemptIn(db', db'.attempts[y], d) ==> AttemptIn(db, db.attempts[y], d) {}
    }
  }
}

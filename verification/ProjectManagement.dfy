/** The Project manager's transactions, and what every sequence of them keeps. */
module ProjectManagement {
  import opened Options
  import opened ProjectTables
  import opened ProjectMemory
  import opened AgentMoves
  import opened ProjectDeletion
  import opened GuardedAttachments

  class ProjectManager {
    var tables: Tables

    constructor (initial: Tables)
      ensures tables == initial
    {
      tables := initial;
    }

    /** `assign_agent`: check every guard, then move Conversations, Tasks and the Agent, and
        retire a vacated Project. */
    method AssignAgent(p: Id, agent: Id) returns (result: Result)
      modifies this
      ensures result == AssignDecision(old(tables), p, agent)
      ensures tables == Assigned(old(tables), p, agent)
      ensures result.Refused? ==> tables == old(tables)
      ensures result.Ok? ==> AgentIn(tables, agent, p)
      ensures old(Boundary(tables) && References(tables)) ==> Boundary(tables) && References(tables)
    {
      ghost var before := tables;
      assert Boundary(before) && References(before) ==>
             Boundary(Assigned(before, p, agent)) && References(Assigned(before, p, agent)) by {
        if Boundary(before) && References(before) {
          AssignmentKeepsBoundary(before, p, agent);
        }
      }
      result := AcceptsWork(tables, p);
      if result.Refused? {
        return;
      }
      if agent !in tables.agents {
        return Refused(AgentNotFound);
      }
      var previous := tables.agents[agent].project;
      if previous.Some? {
        result := AcceptsWork(tables, previous.value);
        if result.Refused? {
          return;
        }
      }
      if previous == Some(p) {
        return Ok;
      }
      if HasLiveTurn(tables, agent) {
        return Refused(LiveTurn);
      }
      if HasActiveWorkflow(tables, agent, previous) {
        return Refused(ActiveWorkflow);
      }
      if SharesConversation(tables, agent, p) {
        return Refused(SharedConversation);
      }
      if SplitsLinkedTask(tables, agent, p) {
        return Refused(LinkedTaskSplit);
      }
      if SplitsHierarchy(tables, agent, p) {
        return Refused(HierarchySplit);
      }
      tables := tables.(conversations := MovedConversations(tables, agent, p));
      tables := tables.(tasks := MovedTasks(tables, tables.conversations, agent, p));
      tables := tables.(agents := tables.agents[agent := tables.agents[agent].(project := Some(p))]);
      assert tables == Moved(before, agent, p);
      if previous.Some? && Vacant(tables, previous.value) {
        tables := tables.(notes := MoveMemory(tables.notes, previous.value, p));
        tables := WithoutProject(tables, previous.value);
      }
      result := Ok;
    }

    /** `delete`: only an unmarked Project that owns nothing. */
    method Delete(p: Id) returns (result: Result)
      modifies this
      ensures result == DeleteDecision(old(tables), p)
      ensures tables == if result.Ok? then WithoutProject(old(tables), p) else old(tables)
    {
      if p !in tables.projects {
        return Refused(ProjectNotFound);
      }
      if tables.projects[p].deletionStartedAt.Some? {
        return Refused(ProjectDeleting);
      }
      if !OwnsNothing(tables, p) {
        return Refused(NotEmpty);
      }
      tables := WithoutProject(tables, p);
      result := Ok;
    }

    /** `begin_cascade`: mark the Project, then end its live work table by table. */
    method BeginCascade(p: Id, now: Time) returns (result: Result)
      modifies this
      ensures result == if p in old(tables).projects then Ok else Refused(ProjectNotFound)
      ensures tables == Begun(old(tables), p, now)
      ensures result.Ok? ==> Marked(tables, p) && Quiet(tables, p) && AcceptsWork(tables, p) == Refused(ProjectDeleting)
    {
      if p !in tables.projects {
        return Refused(ProjectNotFound);
      }
      BeginQuiets(tables, p, now);
      BeginIsSimultaneous(tables, p, now);
      tables := MarkProject(tables, p, now);
      tables := CancelAttempts(tables, p, now);
      tables := CancelTasks(tables, p);
      tables := CancelTurns(tables, p, now);
      tables := CancelRuns(tables, p, now);
      tables := DisableSchedules(tables, p);
      tables := StopAgents(tables, p);
      result := Ok;
    }

    /** `finish_cascade`: only after the first phase. */
    method FinishCascade(p: Id) returns (result: Result)
      modifies this
      ensures result == FinishDecision(old(tables), p)
      ensures tables == if result.Ok? then Finished(old(tables), p) else old(tables)
      ensures old(Boundary(tables)) ==> Boundary(tables)
    {
      if p !in tables.projects {
        return Refused(ProjectNotFound);
      }
      if tables.projects[p].deletionStartedAt.None? {
        return Refused(Unacknowledged);
      }
      ghost var before := tables;
      assert Boundary(before) ==> Boundary(Finished(before, p)) by {
        if Boundary(before) {
          FinishKeepsBoundary(before, p);
        }
      }
      StatementsAreSimultaneous(before, p);
      tables := DetachTasks(tables, p);
      tables := DeleteSchedules(tables, p);
      tables := DeleteAttempts(tables, p);
      tables := DeleteRuns(tables, p);
      tables := DeleteConversations(tables, p);
      tables := DeleteTasks(tables, p);
      tables := DeleteSessions(tables, p);
      tables := DeleteAgents(tables, p);
      tables := DeleteProjectRows(tables, p);
      tables := WithoutProject(tables, p);
      result := Ok;
    }
  }

  // ---- Sequences of transactions ----

  /** Transactions that attach something new, each guarded by its Project. */
  datatype Attachment =
    | CreateAgent(agent: Id, project: Id)
    | CreateConversation(conversation: Id, project: Id, members: set<Id>)
    | CreateTask(task: Id, taskRequest: TaskRequest)
    | QueueTurn(turn: Id, turnConversation: Id, turnAgent: Id)
    | StartRun(run: Id, runRequest: RunRequest)

  datatype Operation =
    | Assign(project: Id, agent: Id)
    | Begin(project: Id, now: Time)
    | Finish(project: Id)
    | Delete(project: Id)
    | Attach(attachment: Attachment)

  function Attached(db: Tables, at: Attachment): Tables {
    match at
    case CreateAgent(a, p) => AgentCreated(db, a, p)
    case CreateConversation(c, p, members) => ConversationCreated(db, c, p, members)
    case CreateTask(t, req) => TaskCreated(db, t, req)
    case QueueTurn(x, c, a) => TurnQueuedFor(db, x, c, a)
    case StartRun(x, req) => RunStarted(db, x, req)
  }

  function After(db: Tables, op: Operation): Tables {
    match op
    case Assign(p, agent) => Assigned(db, p, agent)
    case Begin(p, now) => Begun(db, p, now)
    case Finish(p) => Finishing(db, p)
    case Delete(p) => Deleting(db, p)
    case Attach(at) => Attached(db, at)
  }

  function Finishing(db: Tables, p: Id): Tables {
    if FinishDecision(db, p).Ok? then Finished(db, p) else db
  }

  function Deleting(db: Tables, p: Id): Tables {
    if DeleteDecision(db, p).Ok? then WithoutProject(db, p) else db
  }

  function AgentCreated(db: Tables, a: Id, p: Id): (after: Tables)
    ensures after == db.(agents := after.agents)
  {
    if AcceptsWork(db, p).Ok? && a !in db.agents then db.(agents := db.agents[a := Agent(Some(p), true)]) else db
  }

  function ConversationCreated(db: Tables, c: Id, p: Id, members: set<Id>): (after: Tables)
    ensures after == db.(conversations := after.conversations, participants := after.participants)
  {
    if AcceptsWork(db, p).Ok? && c !in db.conversations && (forall a | a in members :: AgentIn(db, a, p))
    then WithConversation(db, c, p, members) else db
  }

  function WithConversation(db: Tables, c: Id, p: Id, members: set<Id>): Tables {
    db.(conversations := db.conversations[c := Conversation(Some(p))],
        participants := db.participants + (set a | a in members :: (c, a)))
  }

  /** The second phase runs only on a marked Project, an immediate deletion only on an unmarked one. */
  lemma PhasesAreGuarded(db: Tables, p: Id)
    ensures After(db, Finish(p)) ==
            if p in db.projects && db.projects[p].deletionStartedAt.Some? then Finished(db, p) else db
    ensures p !in db.projects || db.projects[p].deletionStartedAt.Some? ==> After(db, Delete(p)) == db
    ensures DeleteDecision(db, p).Ok? ==> After(db, Delete(p)) == WithoutProject(db, p)
    ensures DeleteDecision(db, p).Refused? ==> After(db, Delete(p)) == db
  {
  }

  /** What the guarded creations of Agents and Conversations do, and which transaction is which. */
  lemma AttachmentsRead(db: Tables, a: Id, c: Id, p: Id, members: set<Id>, t: Id, task: TaskRequest, x: Id,
                        run: RunRequest)
    ensures var open := p in db.projects && db.projects[p].deletionStartedAt.None?;
            && After(db, Attach(CreateAgent(a, p))) ==
               (if open && a !in db.agents then db.(agents := db.agents[a := Agent(Some(p), true)]) else db)
            && After(db, Attach(CreateConversation(c, p, members))) ==
               (if open && c !in db.conversations
                   && (forall m | m in members :: m in db.agents && db.agents[m].project == Some(p))
                then db.(conversations := db.conversations[c := Conversation(Some(p))],
                         participants := db.participants + (set m | m in members :: (c, m)))
                else db)
            && After(db, Attach(CreateTask(t, task))) == TaskCreated(db, t, task)
            && After(db, Attach(QueueTurn(x, c, a))) == TurnQueuedFor(db, x, c, a)
            && After(db, Attach(StartRun(x, run))) == RunStarted(db, x, run)
  {
  }

  /** Transactions run one after another. */
  lemma OneAfterAnother(db: Tables, ops: seq<Operation>, op: Operation)
    ensures AfterAll(db, []) == db
    ensures AfterAll(db, ops + [op]) == After(AfterAll(db, ops), op)
  {
    assert (ops + [op])[..|ops|] == ops;
  }

  function AfterAll(db: Tables, ops: seq<Operation>): Tables
    decreases |ops|
  {
    if ops == [] then db else After(AfterAll(db, ops[..|ops| - 1]), ops[|ops| - 1])
  }

  ghost predicate Consistent(db: Tables) {
    Boundary(db) && NoDangling(db) && References(db)
  }

  /** Every Agent and every Conversation has a Project. */
  ghost predicate Housed(agents: map<Id, Agent>, conversations: map<Id, Conversation>) {
    && (forall a :: a in agents ==> agents[a].project.Some?)
    && (forall c :: c in conversations ==> conversations[c].project.Some?)
  }

  ghost predicate AllHoused(db: Tables) {
    Housed(db.agents, db.conversations)
  }

  ghost predicate NewTask(op: Operation) {
    op.Attach? && op.attachment.CreateTask?
  }

  ghost predicate NoNewTasks(ops: seq<Operation>) {
    forall i :: 0 <= i < |ops| ==> !NewTask(ops[i])
  }

  /** What is ended stays ended. */
  ghost predicate NothingReopened(tasks: map<Id, Task>, tasks': map<Id, Task>, agents: map<Id, Agent>,
                                  agents': map<Id, Agent>) {
    && (forall t :: t in tasks && t in tasks' && tasks[t].status != Open ==> tasks'[t].status != Open)
    && (forall a :: a in agents && a in agents' && agents[a].stopped ==> agents'[a].stopped)
  }

  /** Project `d` is still marked, owns the same rows and has nothing live. */
  ghost predicate Spared(db: Tables, db': Tables, d: Id) {
    Consistent(db') && Marked(db', d) && Quiet(db', d) && SameOwned(db, db', d)
  }

  lemma MoveAvoidsOthers(db: Tables, agent: Id, p: Id, d: Id)
    requires Boundary(db) && agent in db.agents && p != d && db.agents[agent].project != Some(d)
    ensures SameOwned(db, Moved(db, agent, p), d)
  {
  }

  /** Deleting a Project row wakes no run of another Project, if its own runs are not live. */
  lemma RowDeletionKeepsQuiet(db: Tables, previous: Id, d: Id)
    requires Quiet(db, d) && previous != d
    requires forall x :: x in db.runs && db.runs[x].project == Some(previous) ==> !LiveRunStatus(db.runs[x].status)
    ensures Quiet(WithoutProject(db, previous), d) && SameOwned(db, WithoutProject(db, previous), d)
  {
  }

  lemma RetiringSparesOthers(db: Tables, previous: Id, p: Id, d: Id)
    requires Quiet(db, d) && previous != d
    requires forall x :: x in db.runs && db.runs[x].project == Some(previous) ==> !LiveRunStatus(db.runs[x].status)
    ensures var db' := Retired(db, Some(previous), p); Quiet(db', d) && SameOwned(db, db', d)
  {
    var handed := db.(notes := MoveMemory(db.notes, previous, p));
    assert SameOwned(db, handed, d);
    FewerRowsStayQuiet(db, handed, d);
    RowDeletionKeepsQuiet(handed, previous, d);
  }

  lemma SameOwnedTransitive(a: Tables, b: Tables, c: Tables, d: Id)
    requires SameOwned(a, b, d) && SameOwned(b, c, d)
    ensures SameOwned(a, c, d)
  {
  }

  lemma AssignKeepsQuiet(db: Tables, p: Id, agent: Id, d: Id)
    requires Boundary(db) && Marked(db, d) && Quiet(db, d)
    ensures var db' := Assigned(db, p, agent); Quiet(db', d) && SameOwned(db, db', d)
  {
    if AssignDecision(db, p, agent).Ok? && db.agents[agent].project != Some(p) {
      var previous, moved := db.agents[agent].project, Moved(db, agent, p);
      MoveAvoidsOthers(db, agent, p, d);
      FewerRowsStayQuiet(db, moved, d);
      if previous.Some? {
        RetiringSparesOthers(moved, previous.value, p, d);
        SameOwnedTransitive(db, moved, Retired(moved, previous, p), d);
      }
    }
  }

  lemma AssignKeepsMark(db: Tables, p: Id, agent: Id, d: Id)
    requires Marked(db, d)
    ensures Marked(Assigned(db, p, agent), d)
  {
  }

  lemma AssignKeepsConsistent(db: Tables, p: Id, agent: Id)
    requires Consistent(db)
    ensures Consistent(Assigned(db, p, agent))
  {
    AssignmentKeepsBoundary(db, p, agent);
  }

  lemma AssignSparesMarked(db: Tables, p: Id, agent: Id, d: Id)
    requires Consistent(db) && Marked(db, d) && Quiet(db, d)
    ensures Spared(db, Assigned(db, p, agent), d)
  {
    AssignKeepsConsistent(db, p, agent);
    AssignKeepsMark(db, p, agent, d);
    AssignKeepsQuiet(db, p, agent, d);
  }

  lemma NewAgentKeepsConsistent(db: Tables, a: Id, p: Id)
    requires Consistent(db) && p in db.projects && a !in db.agents
    ensures Consistent(db.(agents := db.agents[a := Agent(Some(p), true)]))
  {
    var db' := db.(agents := db.agents[a := Agent(Some(p), true)]);
    forall t | t in db'.tasks ensures TaskAgrees(db', db'.tasks[t]) && TaskResolves(db', db'.tasks[t]) {
      assert TaskAgrees(db, db.tasks[t]) && TaskResolves(db, db.tasks[t]);
    }
  }

  lemma NewAgentSparesMarked(db: Tables, a: Id, p: Id, d: Id)
    requires Consistent(db) && Marked(db, d) && Quiet(db, d)
    ensures Spared(db, AgentCreated(db, a, p), d)
  {
    if AcceptsWork(db, p).Ok? && a !in db.agents {
      var db' := db.(agents := db.agents[a := Agent(Some(p), true)]);
      NewAgentKeepsConsistent(db, a, p);
      assert SameOwned(db, db', d);
      FewerRowsStayQuiet(db, db', d);
    }
  }

  lemma NewConversationKeepsConsistent(db: Tables, c: Id, p: Id, members: set<Id>)
    requires Consistent(db) && p in db.projects && c !in db.conversations && forall a :: a in members ==>
             AgentIn(db, a, p)
    ensures Consistent(WithConversation(db, c, p, members))
  {
    var db' := WithConversation(db, c, p, members);
    forall t | t in db'.tasks ensures TaskAgrees(db', db'.tasks[t]) && TaskResolves(db', db'.tasks[t]) {
      assert TaskAgrees(db, db.tasks[t]) && TaskResolves(db, db.tasks[t]);
    }
  }

  lemma NewConversationSparesMarked(db: Tables, c: Id, p: Id, members: set<Id>, d: Id)
    requires Consistent(db) && Marked(db, d) && Quiet(db, d)
    ensures Spared(db, ConversationCreated(db, c, p, members), d)
  {
    if AcceptsWork(db, p).Ok? && c !in db.conversations && (forall a | a in members :: AgentIn(db, a, p)) {
      var db' := WithConversation(db, c, p, members);
      NewConversationKeepsConsistent(db, c, p, members);
      assert SameOwned(db, db', d);
      FewerRowsStayQuiet(db, db', d);
    }
  }

  lemma NewTaskSparesMarked(db: Tables, t: Id, req: TaskRequest, d: Id)
    requires Consistent(db) && Marked(db, d) && Quiet(db, d) && (TaskDecision(db, req).Ok? ==> LinksHoused(db, req))
    ensures Spared(db, TaskCreated(db, t, req), d)
  {
    if t !in db.tasks && TaskDecision(db, req).Ok? {
      var db' := WithTask(db, t, req);
      NewTaskKeepsBoundaryIff(db, t, req);
      NewTaskResolves(db, t, req);
      assert SameOwned(db, db', d);
      FewerRowsStayQuiet(db, db', d);
    }
  }

  lemma NewTurnSparesMarked(db: Tables, x: Id, c: Id, a: Id, d: Id)
    requires Consistent(db) && Marked(db, d) && Quiet(db, d)
    ensures Spared(db, TurnQueuedFor(db, x, c, a), d)
  {
    NewTurnKeepsQuiet(db, x, c, a, d);
    SameRowsSameBoundary(db, TurnQueuedFor(db, x, c, a));
  }

  lemma NewRunSparesMarked(db: Tables, x: Id, req: RunRequest, d: Id)
    requires Consistent(db) && Marked(db, d) && Quiet(db, d)
    ensures Spared(db, RunStarted(db, x, req), d)
  {
    NewRunKeepsQuiet(db, x, req, d);
    SameRowsSameBoundary(db, RunStarted(db, x, req));
  }

  lemma BeginKeepsConsistent(db: Tables, p: Id, now: Time)
    requires Consistent(db)
    ensures Consistent(Begun(db, p, now))
  {
    var db' := Begun(db, p, now);
    forall t | t in db'.tasks ensures TaskAgrees(db', db'.tasks[t]) && TaskResolves(db', db'.tasks[t]) {
      assert TaskAgrees(db, db.tasks[t]) && TaskResolves(db, db.tasks[t]);
    }
  }

  lemma FinishKeepsReferences(db: Tables, p: Id)
    requires References(db)
    ensures References(Finished(db, p))
  {
    FinishRemovesExactlyTheProject(db, p);
  }

  lemma DeleteSparesMarked(db: Tables, p: Id, d: Id)
    requires Consistent(db) && Marked(db, d) && Quiet(db, d)
    ensures Spared(db, Deleting(db, p), d)
  {
    if DeleteDecision(db, p).Ok? {
      DeleteTouchesNothingElse(db, p);
      var db' := WithoutProject(db, p);
      assert SameOwned(db, db', d);
      FewerRowsStayQuiet(db, db', d);
      SameRowsSameBoundary(db, db');
    }
  }

  lemma BeginSparesMarked(db: Tables, p: Id, now: Time, d: Id)
    requires Consistent(db) && Marked(db, d) && Quiet(db, d)
    ensures Spared(db, Begun(db, p, now), d)
  {
    BeginKeepsConsistent(db, p, now);
    BeginKeepsOwnership(db, p, now, d);
    BeginKeepsQuiet(db, p, now, d);
  }

  lemma FinishSparesMarked(db: Tables, p: Id, d: Id)
    requires Consistent(db) && Marked(db, d) && Quiet(db, d) && p != d
    ensures Spared(db, Finishing(db, p), d)
  {
    FinishKeepsBoundary(db, p);
    FinishKeepsReferences(db, p);
    FinishKeepsOthers(db, p, d);
  }

  lemma AttachmentSparesMarked(db: Tables, at: Attachment, d: Id)
    requires Consistent(db) && Marked(db, d) && Quiet(db, d) && (at.CreateTask? ==> AllHoused(db))
    ensures Spared(db, Attached(db, at), d)
  {
    match at
    case CreateAgent(a, p) => NewAgentSparesMarked(db, a, p, d);
    case CreateConversation(c, p, members) => NewConversationSparesMarked(db, c, p, members, d);
    case CreateTask(t, req) => NewTaskSparesMarked(db, t, req, d);
    case QueueTurn(x, c, a) => NewTurnSparesMarked(db, x, c, a, d);
    case StartRun(x, req) => NewRunSparesMarked(db, x, req, d);
  }

  /** One transaction other than its own second phase leaves a marked Project as it is. */
  lemma StepSparesMarked(db: Tables, op: Operation, d: Id)
    requires Consistent(db) && Marked(db, d) && Quiet(db, d) && op != Finish(d) && (NewTask(op) ==> AllHoused(db))
    ensures Spared(db, After(db, op), d)
  {
    match op
    case Assign(p, agent) => AssignSparesMarked(db, p, agent, d);
    case Begin(p, now) => BeginSparesMarked(db, p, now, d);
    case Finish(p) => FinishSparesMarked(db, p, d);
    case Delete(p) => DeleteSparesMarked(db, p, d);
    case Attach(at) => AttachmentSparesMarked(db, at, d);
  }

  // ---- What stays housed and ended ----

  lemma MoveKeepsHoused(db: Tables, agent: Id, p: Id)
    requires agent in db.agents
    ensures var db' := Moved(db, agent, p);
            && (AllHoused(db) ==> AllHoused(db'))
            && NothingReopened(db.tasks, db'.tasks, db.agents, db'.agents)
  {
  }

  lemma RetiringKeepsRows(db: Tables, previous: Option<Id>, p: Id)
    ensures var db' := Retired(db, previous, p);
            db'.agents == db.agents && db'.conversations == db.conversations && db'.tasks == db.tasks
  {
  }

  lemma AssignKeepsHoused(db: Tables, p: Id, agent: Id)
    ensures var db' := Assigned(db, p, agent);
            && (AllHoused(db) ==> AllHoused(db'))
            && NothingReopened(db.tasks, db'.tasks, db.agents, db'.agents)
  {
    if AssignDecision(db, p, agent).Ok? && db.agents[agent].project != Some(p) {
      MoveKeepsHoused(db, agent, p);
      RetiringKeepsRows(Moved(db, agent, p), db.agents[agent].project, p);
    }
  }

  lemma FinishKeepsHoused(db: Tables, p: Id)
    ensures var db' := Finished(db, p);
            && (AllHoused(db) ==> AllHoused(db'))
            && NothingReopened(db.tasks, db'.tasks, db.agents, db'.agents)
  {
    FinishRemovesExactlyTheProject(db, p);
  }

  lemma BeginKeepsHoused(db: Tables, p: Id, now: Time)
    ensures var db' := Begun(db, p, now);
            && (AllHoused(db) ==> AllHoused(db'))
            && NothingReopened(db.tasks, db'.tasks, db.agents, db'.agents)
  {
  }

  lemma AttachmentKeepsHoused(db: Tables, at: Attachment)
    ensures var db' := Attached(db, at);
            && (AllHoused(db) ==> AllHoused(db'))
            && NothingReopened(db.tasks, db'.tasks, db.agents, db'.agents)
  {
  }

  /** No transaction takes a Project away from an Agent or a Conversation, reopens a Task or restarts
      an Agent. */
  lemma StepKeepsHoused(db: Tables, op: Operation)
    ensures var db' := After(db, op);
            && (AllHoused(db) ==> AllHoused(db'))
            && NothingReopened(db.tasks, db'.tasks, db.agents, db'.agents)
  {
    match op
    case Assign(p, agent) => AssignKeepsHoused(db, p, agent);
    case Begin(p, now) => BeginKeepsHoused(db, p, now);
    case Finish(p) => FinishKeepsHoused(db, p);
    case Delete(p) =>
    case Attach(at) => AttachmentKeepsHoused(db, at);
  }

  lemma EndedStays(db: Tables, db': Tables, d: Id)
    requires SameOwned(db, db', d) && NothingReopened(db.tasks, db'.tasks, db.agents, db'.agents) && Ended(db, d)
    ensures Ended(db', d)
  {
    forall t | TaskIn(db', t, d) ensures db'.tasks[t].status != Open {
      assert TaskIn(db, t, d);
    }
    forall a | AgentIn(db', a, d) ensures db'.agents[a].stopped {
      assert AgentIn(db, a, d);
    }
  }

  // ---- Between the two phases ----

  ghost predicate Frozen(db: Tables, db': Tables, d: Id) {
    && Spared(db, db', d)
    && (AllHoused(db) ==> AllHoused(db'))
    && (Ended(db, d) ==> Ended(db', d))
  }

  lemma StepKeepsFrozen(db: Tables, before: Tables, op: Operation, d: Id)
    requires Frozen(db, before, d) && op != Finish(d) && (NewTask(op) ==> AllHoused(db))
    ensures Frozen(db, After(before, op), d)
  {
    var after := After(before, op);
    StepSparesMarked(before, op, d);
    StepKeepsHoused(before, op);
    SameOwnedTransitive(db, before, after, d);
    if Ended(db, d) {
      EndedStays(before, after, d);
    }
  }

  /** Between its two phases a Project stays marked, gains and loses nothing, and none of its Tasks,
      turns, runs, schedules or Agents comes back to life, whatever other transactions run. Creating
      Tasks is among them when Agents and Conversations have a Project. */
  lemma {:induction false} MarkedProjectIsFrozen(db: Tables, ops: seq<Operation>, d: Id)
    requires Consistent(db) && Marked(db, d) && Quiet(db, d) && Finish(d) !in ops && (AllHoused(db) || NoNewTasks(ops))
    ensures Frozen(db, AfterAll(db, ops), d)
    decreases |ops|
  {
    if ops != [] {
      var init, op := ops[..|ops| - 1], ops[|ops| - 1];
      assert op in ops && forall o :: o in init ==> o in ops;
      MarkedProjectIsFrozen(db, init, d);
      StepKeepsFrozen(db, AfterAll(db, init), op, d);
    }
  }

  lemma BegunIsMarked(db: Tables, d: Id, now: Time)
    requires Consistent(db) && d in db.projects
    ensures var begun := Begun(db, d, now);
            && Consistent(begun) && Marked(begun, d) && Quiet(begun, d) && Ended(begun, d)
            && SameOwned(db, begun, d) && (AllHoused(db) ==> AllHoused(begun))
  {
    BeginKeepsConsistent(db, d, now);
    BeginKeepsOwnership(db, d, now, d);
    BeginQuiets(db, d, now);
    BeginEnds(db, d, now);
    BeginKeepsHoused(db, d, now);
  }

  /** Begin, any other transactions, finish: the second phase is admitted and removes exactly the
      Agents, Conversations and Tasks the Project owned when deletion began. */
  lemma CascadeRemovesWhatItMarked(db: Tables, ops: seq<Operation>, d: Id, now: Time)
    requires Consistent(db) && d in db.projects && Finish(d) !in ops && (AllHoused(db) || NoNewTasks(ops))
    ensures var between := AfterAll(Begun(db, d, now), ops);
            var db' := Finished(between, d);
            && FinishDecision(between, d).Ok? && Consistent(db') && d !in db'.projects
            && (forall a :: a in between.agents && a !in db'.agents <==> AgentIn(db, a, d))
            && (forall c :: c in between.conversations && c !in db'.conversations <==> ConversationIn(db, c, d))
            && (forall t :: t in between.tasks && t !in db'.tasks <==> TaskIn(db, t, d))
  {
    var begun := Begun(db, d, now);
    BegunIsMarked(db, d, now);
    MarkedProjectIsFrozen(begun, ops, d);
    var between := AfterAll(begun, ops);
    SameOwnedTransitive(db, begun, between, d);
    FinishRemovesWhatWasOwned(db, between, d);
    FinishKeepsBoundary(between, d);
    FinishKeepsReferences(between, d);
  }

  lemma FinishRemovesWhatWasOwned(db: Tables, between: Tables, d: Id)
    requires SameOwned(db, between, d)
    ensures var db' := Finished(between, d);
            && d !in db'.projects
            && (forall a :: a in between.agents && a !in db'.agents <==> AgentIn(db, a, d))
            && (forall c :: c in between.conversations && c !in db'.conversations <==> ConversationIn(db, c, d))
            && (forall t :: t in between.tasks && t !in db'.tasks <==> TaskIn(db, t, d))
  {
    FinishRemovesExactlyTheProject(between, d);
  }

  /** Beginning again changes nothing, however many other transactions ran in between. */
  lemma BeginCanBeRetried(db: Tables, ops: seq<Operation>, d: Id, now: Time, later: Time)
    requires Consistent(db) && d in db.projects && Finish(d) !in ops && (AllHoused(db) || NoNewTasks(ops))
    ensures var between := AfterAll(Begun(db, d, now), ops); Begun(between, d, later) == between
  {
    BegunIsMarked(db, d, now);
    MarkedProjectIsFrozen(Begun(db, d, now), ops, d);
    NothingToBegin(AfterAll(Begun(db, d, now), ops), d, later);
  }

  // ---- Why new Tasks need housed Agents ----

  /** Assigning a projectless Agent takes its Tasks along even out of a Project being deleted. */
  lemma TaskLeavesMarkedProject(db: Tables, a: Id, t: Id, d: Id, p: Id)
    requires Marked(db, d) && TaskIn(db, t, d) && db.tasks[t].agent == Some(a)
    requires AssignDecision(db, p, a).Ok? && db.agents[a].project.None?
    ensures TaskIn(Assigned(db, p, a), t, p) && p != d
  {
  }

  /** Nothing of the Project would follow the Agent. */
  ghost predicate NothingFollows(db: Tables, a: Id, d: Id, p: Id) {
    && (forall c :: ConversationIn(db, c, d) ==> (c, a) !in db.participants)
    && (forall t :: TaskIn(db, t, d) ==> Destination(db, a, p, db.tasks[t]) == Some(d))
  }

  /** In any database, an admitted assignment leaves a marked Project its rows exactly when none of its
      Conversations has the Agent and none of its Tasks is bound for the target. */
  lemma AssignmentSparesIff(db: Tables, a: Id, d: Id, p: Id)
    requires Marked(db, d) && AssignDecision(db, p, a).Ok? && db.agents[a].project != Some(p)
    ensures SameOwned(db, Assigned(db, p, a), d) <==> NothingFollows(db, a, d, p)
  {
    var moved := Moved(db, a, p);
    RetiringKeepsRows(moved, db.agents[a].project, p);
    MoveSparesIff(db, a, d, p);
    assert SameOwned(moved, Assigned(db, p, a), d);
    if SameOwned(db, Assigned(db, p, a), d) {
      SameOwnedBack(db, moved, Assigned(db, p, a), d);
    } else if SameOwned(db, moved, d) {
      SameOwnedTransitive(db, moved, Assigned(db, p, a), d);
    }
  }

  lemma SameOwnedBack(a: Tables, b: Tables, c: Tables, d: Id)
    requires SameOwned(a, c, d) && SameOwned(b, c, d)
    ensures SameOwned(a, b, d)
  {
  }

  lemma MoveSparesIff(db: Tables, a: Id, d: Id, p: Id)
    requires a in db.agents && p != d && db.agents[a].project != Some(d)
    ensures SameOwned(db, Moved(db, a, p), d) <==> NothingFollows(db, a, d, p)
  {
    var moved := Moved(db, a, p);
    forall t | t in db.tasks ensures TaskIn(moved, t, d) <==> Destination(db, a, p, db.tasks[t]) == Some(d) {
      TasksReachDestination(db, a, p, t);
    }
    forall c | c in db.conversations
      ensures ConversationIn(moved, c, d) <==> ConversationIn(db, c, d) && (c, a) !in db.participants
    {
    }
    assert SameOwned(db, moved, d) ==>
           (forall c :: ConversationIn(db, c, d) ==> ConversationIn(moved, c, d)) &&
           (forall t :: TaskIn(db, t, d) ==> TaskIn(moved, t, d));
  }

  lemma NothingBlocks(db: Tables, a: Id, t: Id, p: Id, project: Option<Id>, status: TaskStatus)
    requires AcceptsWork(db, p).Ok? && db.agents == map[a := Agent(None, true)]
    requires db.tasks == map[t := Task(Some(a), None, None, project, status)]
    requires db.participants == {} && db.attempts == map[] && db.turns == map[] && db.runs == map[]
    ensures AssignDecision(db, p, a).Ok?
  {
    assert !SplitsHierarchy(db, a, p) && !SplitsLinkedTask(db, a, p) && !SharesConversation(db, a, p);
  }

  /** A Task may be created in a Project for a projectless Agent. */
  lemma TaskForProjectlessAgent(db: Tables, a: Id, d: Id, req: TaskRequest)
    requires req == TaskRequest(Some(a), None, None, Some(d)) && AcceptsWork(db, d).Ok?
    requires a in db.agents && db.agents[a].project.None?
    ensures TaskDecision(db, req).Ok? && TaskProject(db, req) == Some(d) && !LinksHoused(db, req)
  {
    var all := Candidates(db, req);
    assert all == [None, Some(d), None, None];
    FirstProjectIsNamed(all, 1);
  }

  /** So a marked Project is not frozen in every consistent database: here it loses a Task. */
  lemma MarkedProjectLosesTask(db: Tables, a: Id, t: Id, d: Id, p: Id, now: Time)
    requires d != p && db.projects == map[d := Project(None), p := Project(None)]
    requires db.agents == map[a := Agent(None, true)] && db.conversations == map[] && db.tasks == map[]
    requires db.participants == {} && db.attempts == map[] && db.turns == map[] && db.runs == map[] && db.notes == map[]
    ensures Consistent(db)
    ensures var req := TaskRequest(Some(a), None, None, Some(d));
            var marked := Begun(TaskCreated(db, t, req), d, now);
            Marked(marked, d) && TaskIn(marked, t, d) && TaskIn(Assigned(marked, p, a), t, p)
  {
    var req := TaskRequest(Some(a), None, None, Some(d));
    assert a in db.agents;
    TaskForProjectlessAgent(db, a, d, req);
    var created := TaskCreated(db, t, req);
    assert created.tasks == map[t := Task(Some(a), None, None, Some(d), Open)];
    var marked := Begun(created, d, now);
    BegunSingle(created, a, t, d, p, now);
    NothingBlocks(marked, a, t, p, Some(d), Cancelled);
    TaskLeavesMarkedProject(marked, a, t, d, p);
  }

  lemma BegunSingle(db: Tables, a: Id, t: Id, d: Id, p: Id, now: Time)
    requires d != p && db.projects == map[d := Project(None), p := Project(None)]
    requires db.agents == map[a := Agent(None, true)]
    requires db.tasks == map[t := Task(Some(a), None, None, Some(d), Open)]
    requires db.attempts == map[] && db.turns == map[] && db.runs == map[]
    ensures var db' := Begun(db, d, now);
            && AcceptsWork(db', p).Ok? && Marked(db', d) && db'.agents == db.agents
            && db'.tasks == map[t := Task(Some(a), None, None, Some(d), Cancelled)]
            && db'.participants == db.participants && db'.attempts == map[] && db'.turns == map[] && db'.runs == map[]
  {
  }
}

/** Moving an Agent to another Project: the guards of `assign_agent` and what they protect. */
module AgentMoves {
  import opened Options
  import opened ProjectTables
  import opened ProjectMemory

  // ---- Guards ----

  predicate HasLiveTurn(db: Tables, agent: Id) {
    || (exists x | x in db.attempts ::
          && db.attempts[x].status in {Preparing, Running, Review}
          && (|| db.attempts[x].session == agent
              || (db.attempts[x].task.Some? && db.attempts[x].task.value in db.tasks
                  && db.tasks[db.attempts[x].task.value].agent == Some(agent))))
    || (exists x | x in db.turns :: db.turns[x].agent == agent && db.turns[x].status == TurnRunning)
  }

  predicate HasActiveWorkflow(db: Tables, agent: Id, previous: Option<Id>) {
    exists x | x in db.runs ::
      && LiveRunStatus(db.runs[x].status)
      && (|| (previous.Some? && db.runs[x].project == previous)
          || (db.runs[x].conversation.Some? && (db.runs[x].conversation.value, agent) in db.participants)
          || (exists s | s in db.steps :: s.0 == x && s.1 in db.tasks && db.tasks[s.1].agent == Some(agent))
          || (exists b | b in db.bindings :: b.run == x && b.agent == agent))
  }

  /** A Conversation outside the target that the Agent shares with another Agent. */
  predicate SharesConversation(db: Tables, agent: Id, p: Id) {
    exists m, other | m in db.participants && other in db.participants ::
      && m.1 == agent && other.0 == m.0 && other.1 != agent
      && m.0 in db.conversations && db.conversations[m.0].project != Some(p)
  }

  /** A Task that the move would separate from its Agent or its Conversation. */
  predicate SplitsLinkedTask(db: Tables, agent: Id, p: Id) {
    exists t | t in db.tasks ::
      var task := db.tasks[t];
      && task.conversation.Some? && task.conversation.value in db.conversations
      && var joined := (task.conversation.value, agent) in db.participants;
         || (joined && task.agent.Some? && task.agent.value != agent && !AgentIn(db, task.agent.value, p))
         || (!joined && task.agent == Some(agent) && db.conversations[task.conversation.value].project != Some(p))
  }

  /** The Project a Task ends in. */
  function Destination(db: Tables, agent: Id, p: Id, task: Task): Option<Id> {
    if task.agent == Some(agent)
       || (task.conversation.Some? && task.conversation.value in db.conversations
           && (db.conversations[task.conversation.value].project == Some(p)
               || (task.conversation.value, agent) in db.participants))
    then Some(p)
    else task.project
  }

  /** A parent and child Task, at least one of them moving, that would end apart. */
  predicate SplitsHierarchy(db: Tables, agent: Id, p: Id) {
    exists t | t in db.tasks ::
      var child := db.tasks[t];
      && child.parent.Some? && child.parent.value in db.tasks
      && var parent := db.tasks[child.parent.value];
         && Destination(db, agent, p, child) != Destination(db, agent, p, parent)
         && (Destination(db, agent, p, child) != child.project || Destination(db, agent, p, parent) != parent.project)
  }

  // ---- Updates ----

  function MovedConversations(db: Tables, agent: Id, p: Id): map<Id, Conversation> {
    map c | c in db.conversations ::
      if (c, agent) in db.participants then Conversation(Some(p)) else db.conversations[c]
  }

  /** Every Task of the Agent or of a Conversation that is now in the target. */
  function MovedTasks(db: Tables, conversations: map<Id, Conversation>, agent: Id, p: Id): map<Id, Task> {
    map t | t in db.tasks ::
      var task := db.tasks[t];
      if task.agent == Some(agent)
         || (task.conversation.Some? && task.conversation.value in conversations
             && conversations[task.conversation.value].project == Some(p))
      then task.(project := Some(p)) else task
  }

  function Moved(db: Tables, agent: Id, p: Id): Tables
    requires agent in db.agents
  {
    var conversations := MovedConversations(db, agent, p);
    db.(conversations := conversations,
        tasks := MovedTasks(db, conversations, agent, p),
        agents := db.agents[agent := db.agents[agent].(project := Some(p))])
  }

  predicate Vacant(db: Tables, p: Id) {
    && (forall a | a in db.agents :: db.agents[a].project != Some(p))
    && (forall c | c in db.conversations :: db.conversations[c].project != Some(p))
    && (forall t | t in db.tasks :: db.tasks[t].project != Some(p))
    && (forall w | w in db.workflows :: db.workflows[w] != Some(p))
  }

  /** Deleting workflow runs takes their step executions and bindings along (CASCADE). */
  function WithoutRuns(db: Tables, gone: set<Id>): Tables {
    db.(runs := db.runs - gone,
        steps := (set s | s in db.steps && s.0 !in gone),
        bindings := (set b | b in db.bindings && b.run !in gone))
  }

  function WorkflowsOf(workflows: map<Id, Option<Id>>, p: Id): set<Id> {
    set w | w in workflows && workflows[w] == Some(p)
  }

  function RunsUsing(runs: map<Id, Run>, workflows: set<Id>): set<Id> {
    set x | x in runs && runs[x].workflow in workflows
  }

  /** The runs and uses of a workflow go with it (CASCADE). */
  function WithoutWorkflows(db: Tables, gone: set<Id>): Tables {
    WithoutRuns(db, RunsUsing(db.runs, gone)).(
      workflows := db.workflows - gone,
      projectWorkflows := (set w | w in db.projectWorkflows && w.1 !in gone))
  }

  function RowsOutside(rows: set<(Id, Id)>, p: Id): set<(Id, Id)> {
    set r | r in rows && r.0 != p
  }

  function BindingsOutside(bindings: set<Binding>, p: Id): set<Binding> {
    set b | b in bindings && b.project != p
  }

  function ReleasedRuns(runs: map<Id, Run>, p: Id): map<Id, Run> {
    map x | x in runs :: if runs[x].project == Some(p) then runs[x].(project := None) else runs[x]
  }

  /** Deleting the row of a Project that has no Agent, Conversation, Task or note left: its
      workflows go with their runs, its bindings, sync states and workflow uses go (CASCADE), and
      other runs lose it (SET NULL). */
  function WithoutProject(db: Tables, p: Id): (rest: Tables)
    ensures rest.agents == db.agents && rest.conversations == db.conversations && rest.tasks == db.tasks
    ensures rest.participants == db.participants && rest.notes == db.notes
  {
    var kept := WithoutWorkflows(db, WorkflowsOf(db.workflows, p));
    kept.(runs := ReleasedRuns(kept.runs, p),
          bindings := BindingsOutside(kept.bindings, p),
          projectWorkflows := RowsOutside(kept.projectWorkflows, p),
          syncStates := RowsOutside(kept.syncStates, p),
          projects := kept.projects - {p})
  }

  /** A Project without workflows takes no run along. */
  lemma NoWorkflowsToDelete(db: Tables, p: Id)
    requires forall w :: w in db.workflows ==> db.workflows[w] != Some(p)
    ensures WithoutWorkflows(db, WorkflowsOf(db.workflows, p)) == db
  {
    assert WorkflowsOf(db.workflows, p) == {} && RunsUsing(db.runs, {}) == {};
  }

  /** A previous Project left vacant hands its notes to the target and is deleted. */
  function Retired(db: Tables, previous: Option<Id>, p: Id): Tables {
    if previous.Some? && Vacant(db, previous.value) then
      WithoutProject(db.(notes := MoveMemory(db.notes, previous.value, p)), previous.value)
    else db
  }

  /** The decision of `assign_agent`, in the order of its checks. */
  function AssignDecision(db: Tables, p: Id, agent: Id): Result {
    if AcceptsWork(db, p).Refused? then AcceptsWork(db, p)
    else if agent !in db.agents then Refused(AgentNotFound)
    else
      var previous := db.agents[agent].project;
      if previous.Some? && AcceptsWork(db, previous.value).Refused? then AcceptsWork(db, previous.value)
      else if previous == Some(p) then Ok
      else if HasLiveTurn(db, agent) then Refused(LiveTurn)
      else if HasActiveWorkflow(db, agent, previous) then Refused(ActiveWorkflow)
      else if SharesConversation(db, agent, p) then Refused(SharedConversation)
      else if SplitsLinkedTask(db, agent, p) then Refused(LinkedTaskSplit)
      else if SplitsHierarchy(db, agent, p) then Refused(HierarchySplit)
      else Ok
  }

  function Assigned(db: Tables, p: Id, agent: Id): Tables {
    if AssignDecision(db, p, agent).Refused? || db.agents[agent].project == Some(p) then db
    else Retired(Moved(db, agent, p), db.agents[agent].project, p)
  }

  // ---- What the guards guarantee ----

  /** The bulk update sends every Task exactly to the destination the guard predicted. */
  lemma TasksReachDestination(db: Tables, agent: Id, p: Id, t: Id)
    requires agent in db.agents && t in db.tasks
    ensures Moved(db, agent, p).tasks[t] == db.tasks[t].(project := Destination(db, agent, p, db.tasks[t]))
  {
  }

  /** The guards are strong enough: an admitted move keeps the Project boundary. */
  lemma MoveKeepsBoundary(db: Tables, agent: Id, p: Id)
    requires Boundary(db) && agent in db.agents
    requires !SharesConversation(db, agent, p) && !SplitsLinkedTask(db, agent, p) && !SplitsHierarchy(db, agent, p)
    ensures Boundary(Moved(db, agent, p))
  {
  }

  /** The guards are no stronger than needed: a structural refusal means the update would have
      broken the boundary. */
  lemma RefusedMoveWouldBreakBoundary(db: Tables, agent: Id, p: Id)
    requires Boundary(db) && NoDangling(db) && agent in db.agents
    requires SharesConversation(db, agent, p) || SplitsLinkedTask(db, agent, p) || SplitsHierarchy(db, agent, p)
    ensures !Boundary(Moved(db, agent, p))
  {
    var db' := Moved(db, agent, p);
    if SharesConversation(db, agent, p) {
      var m, other :| m in db.participants && other in db.participants
                      && m.1 == agent && other.0 == m.0 && other.1 != agent
                      && m.0 in db.conversations && db.conversations[m.0].project != Some(p);
      assert m == (m.0, agent);
      assert db'.conversations[other.0].project == Some(p) != db'.agents[other.1].project;
    } else if SplitsLinkedTask(db, agent, p) {
      var t :| t in db.tasks && db.tasks[t].conversation.Some? && db.tasks[t].conversation.value in db.conversations
               && var joined := (db.tasks[t].conversation.value, agent) in db.participants;
                  || (joined && db.tasks[t].agent.Some? && db.tasks[t].agent.value != agent
                      && !AgentIn(db, db.tasks[t].agent.value, p))
                  || (!joined && db.tasks[t].agent == Some(agent)
                      && db.conversations[db.tasks[t].conversation.value].project != Some(p));
      assert TaskResolves(db, db.tasks[t]);
      assert !TaskAgrees(db', db'.tasks[t]);
    } else {
      var t :| t in db.tasks && db.tasks[t].parent.Some? && db.tasks[t].parent.value in db.tasks
               && Destination(db, agent, p, db.tasks[t]) !=
                  Destination(db, agent, p, db.tasks[db.tasks[t].parent.value]);
      TasksReachDestination(db, agent, p, t);
      TasksReachDestination(db, agent, p, db.tasks[t].parent.value);
      assert !TaskAgrees(db', db'.tasks[t]);
    }
  }

  /** The three structural guards decide exactly whether the bulk update keeps the boundary. */
  lemma GuardsAreExact(db: Tables, agent: Id, p: Id)
    requires Boundary(db) && NoDangling(db) && agent in db.agents
    ensures Boundary(Moved(db, agent, p)) <==>
            !SharesConversation(db, agent, p) && !SplitsLinkedTask(db, agent, p) && !SplitsHierarchy(db, agent, p)
  {
    if SharesConversation(db, agent, p) || SplitsLinkedTask(db, agent, p) || SplitsHierarchy(db, agent, p) {
      RefusedMoveWouldBreakBoundary(db, agent, p);
    } else {
      MoveKeepsBoundary(db, agent, p);
    }
  }

  /** After a successful call the Agent is in the target and every boundary, reference and note
      still stands; a refused call changes nothing. */
  lemma AssignmentKeepsBoundary(db: Tables, p: Id, agent: Id)
    requires Boundary(db) && References(db)
    ensures var db' := Assigned(db, p, agent);
            && Boundary(db') && References(db') && db'.notes.Keys == db.notes.Keys
            && (AssignDecision(db, p, agent).Ok? ==> AgentIn(db', agent, p) && p in db'.projects)
            && (AssignDecision(db, p, agent).Refused? ==> db' == db)
            && (NoDangling(db) ==> NoDangling(db'))
  {
    if AssignDecision(db, p, agent).Ok? && db.agents[agent].project != Some(p) {
      MoveKeepsBoundary(db, agent, p);
      var moved, previous := Moved(db, agent, p), db.agents[agent].project;
      MoveKeepsReferences(db, agent, p);
      if previous.Some? && Vacant(moved, previous.value) {
        RetiringKeepsTables(moved, previous.value, p);
      }
    }
  }

  lemma MoveKeepsReferences(db: Tables, agent: Id, p: Id)
    requires References(db) && agent in db.agents && p in db.projects
    ensures References(Moved(db, agent, p)) && (NoDangling(db) ==> NoDangling(Moved(db, agent, p)))
  {
  }

  lemma RetiringKeepsTables(db: Tables, previous: Id, p: Id)
    requires Boundary(db) && References(db) && Vacant(db, previous) && p in db.projects && p != previous
    ensures var db' := Retired(db, Some(previous), p);
            Boundary(db') && References(db') && db'.notes.Keys == db.notes.Keys && (NoDangling(db) ==> NoDangling(db'))
  {
    SameRowsSameBoundary(db, Retired(db, Some(previous), p));
  }
}

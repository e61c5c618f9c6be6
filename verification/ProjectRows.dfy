/** The Project transactions said row by row: which rows each leaves, with which columns. */
module ProjectRows {
  import opened Options
  import opened ProjectTables
  import opened AgentMoves
  import opened ProjectDeletion
  import opened ProjectMemory

  // ---- The second phase of deletion ----

  lemma OwnersAfterFinish(db: Tables, p: Id, x: Id)
    ensures var db' := Finished(db, p);
            && (x in db'.projects <==> x in db.projects && x != p)
            && (x in db'.projects ==> db'.projects[x] == db.projects[x])
            && (x in db'.agents <==> x in db.agents && db.agents[x].project != Some(p))
            && (x in db'.agents ==> db'.agents[x] == db.agents[x])
            && (x in db'.conversations <==> x in db.conversations && db.conversations[x].project != Some(p))
            && (x in db'.conversations ==> db'.conversations[x] == db.conversations[x])
            && (x in db'.notes <==> x in db.notes && db.notes[x] != p)
            && (x in db'.notes ==> db'.notes[x] == db.notes[x])
            && (x in db'.workflows <==> x in db.workflows && db.workflows[x] != Some(p))
            && (x in db'.workflows ==> db'.workflows[x] == db.workflows[x])
  {
  }

  /** A surviving Task lets go of what was removed and keeps everything else. */
  lemma TasksAfterFinish(db: Tables, p: Id, t: Id)
    ensures var db' := Finished(db, p);
            && (t in db'.tasks <==> t in db.tasks && db.tasks[t].project != Some(p))
            && (t in db'.tasks ==>
                  var was := db.tasks[t];
                  db'.tasks[t] == Task(
                    if was.agent.Some? && was.agent.value in db.agents && db.agents[was.agent.value].project == Some(p)
                    then None else was.agent,
                    if was.conversation.Some? && was.conversation.value in db.conversations
                       && db.conversations[was.conversation.value].project == Some(p)
                    then None else was.conversation,
                    if was.parent.Some? && was.parent.value in db.tasks && db.tasks[was.parent.value].project == Some(p)
                    then None else was.parent,
                    was.project, was.status))
  {
  }

  lemma PairsAfterFinish(db: Tables, p: Id, c: Id, a: Id)
    ensures var db' := Finished(db, p);
            && ((c, a) in db'.participants <==>
                && (c, a) in db.participants
                && !(c in db.conversations && db.conversations[c].project == Some(p))
                && !(a in db.agents && db.agents[a].project == Some(p)))
            && ((c, a) in db'.syncStates <==> (c, a) in db.syncStates && c != p)
            && ((c, a) in db'.projectWorkflows <==>
                (c, a) in db.projectWorkflows && c != p && !(a in db.workflows && db.workflows[a] == Some(p)))
  {
  }

  lemma SessionsAfterFinish(db: Tables, p: Id, x: Id)
    ensures var db' := Finished(db, p);
            && (x in db'.sessions <==>
                && x in db.sessions
                && !(db.sessions[x].agent in db.agents && db.agents[db.sessions[x].agent].project == Some(p)))
            && (x in db'.sessions ==> db'.sessions[x] == db.sessions[x])
            && (x in db'.turns <==>
                && x in db.turns
                && !(db.turns[x].conversation in db.conversations
                     && db.conversations[db.turns[x].conversation].project == Some(p))
                && !(db.turns[x].agent in db.agents && db.agents[db.turns[x].agent].project == Some(p)))
            && (x in db'.turns ==> db'.turns[x] == db.turns[x])
  {
  }

  lemma AttemptsAfterFinish(db: Tables, p: Id, x: Id)
    ensures var db' := Finished(db, p);
            && (x in db'.attempts <==>
                && x in db.attempts
                && var was := db.attempts[x];
                   && !(was.task.Some? && was.task.value in db.tasks && db.tasks[was.task.value].project == Some(p))
                   && !(was.session in db.sessions && db.sessions[was.session].agent in db.agents
                        && db.agents[db.sessions[was.session].agent].project == Some(p)))
            && (x in db'.attempts ==> db'.attempts[x] == db.attempts[x])
            && (x in db'.schedules <==>
                && x in db.schedules
                && var was := db.schedules[x];
                   && !(was.agent in db.agents && db.agents[was.agent].project == Some(p))
                   && !(was.task.Some? && was.task.value in db.tasks && db.tasks[was.task.value].project == Some(p))
                   && !(was.conversation.Some? && was.conversation.value in db.conversations
                        && db.conversations[was.conversation.value].project == Some(p)))
            && (x in db'.schedules ==> db'.schedules[x] == db.schedules[x])
  {
  }

  /** A run that names neither Project nor Conversation belongs where its steps' Tasks and its bindings do. */
  ghost predicate UnscopedRunIn(db: Tables, x: Id, p: Id)
    requires x in db.runs
  {
    && db.runs[x].project.None? && db.runs[x].conversation.None?
    && (|| (exists t :: (x, t) in db.steps && t in db.tasks && db.tasks[t].project == Some(p))
        || (exists a :: Binding(x, a, p) in db.bindings))
  }

  lemma RunsOfProject(db: Tables, x: Id, p: Id)
    requires x in db.runs
    ensures RunIn(db, x, db.runs[x], p) <==>
            || db.runs[x].project == Some(p)
            || (db.runs[x].conversation.Some? && db.runs[x].conversation.value in db.conversations
                && db.conversations[db.runs[x].conversation.value].project == Some(p))
            || UnscopedRunIn(db, x, p)
  {
    if s :| s in db.steps && s.0 == x && TaskIn(db, s.1, p) {
      assert s == (x, s.1);
    }
    if t :| (x, t) in db.steps && t in db.tasks && db.tasks[t].project == Some(p) {
      assert (x, t).0 == x && (x, t).1 == t;
    }
    if b :| b in db.bindings && b.run == x && b.project == p {
      assert b == Binding(x, b.agent, p);
    }
    if a :| Binding(x, a, p) in db.bindings {
      assert Binding(x, a, p).run == x;
    }
  }

  lemma RunsAfterFinish(db: Tables, p: Id, x: Id)
    ensures var db' := Finished(db, p);
            && (x in db'.runs <==>
                && x in db.runs
                && var was := db.runs[x];
                   && was.project != Some(p)
                   && !(was.conversation.Some? && was.conversation.value in db.conversations
                        && db.conversations[was.conversation.value].project == Some(p))
                   && !UnscopedRunIn(db, x, p)
                   && !(was.sourceTask.Some? && was.sourceTask.value in db.tasks
                        && db.tasks[was.sourceTask.value].project == Some(p))
                   && !(was.workflow in db.workflows && db.workflows[was.workflow] == Some(p)))
            && (x in db'.runs ==> db'.runs[x] == db.runs[x])
  {
    if x in db.runs {
      RunsOfProject(db, x, p);
    }
  }

  lemma RunPartsAfterFinish(db: Tables, p: Id, x: Id, t: Id, a: Id, q: Id)
    ensures var db' := Finished(db, p);
            && ((x, t) in db'.steps <==> (x, t) in db.steps && (x in db.runs ==> x in db'.runs))
            && (Binding(x, a, q) in db'.bindings <==>
                Binding(x, a, q) in db.bindings && q != p && (x in db.runs ==> x in db'.runs))
  {
  }

  // ---- The first phase ----

  /** Beginning marks the Project once and stops its Agents; it changes no other owner. */
  lemma OwnersAfterBegin(db: Tables, p: Id, now: Time, x: Id)
    requires p in db.projects
    ensures var db' := Begun(db, p, now);
            && db'.projects.Keys == db.projects.Keys && db'.agents.Keys == db.agents.Keys
            && db'.tasks.Keys == db.tasks.Keys
            && db'.conversations == db.conversations && db'.participants == db.participants && db'.notes == db.notes
            && db'.workflows == db.workflows && db'.sessions == db.sessions && db'.steps == db.steps
            && db'.bindings == db.bindings && db'.syncStates == db.syncStates
            && db'.projectWorkflows == db.projectWorkflows
            && db'.projects[p] ==
               Project(if db.projects[p].deletionStartedAt.Some? then db.projects[p].deletionStartedAt else Some(now))
            && (x in db.projects && x != p ==> db'.projects[x] == db.projects[x])
            && (x in db.agents ==>
                  db'.agents[x] == Agent(db.agents[x].project, db.agents[x].stopped || db.agents[x].project == Some(p)))
            && (x in db.tasks ==>
                  db'.tasks[x] ==
                  if db.tasks[x].project == Some(p) && db.tasks[x].status != Completed
                  then db.tasks[x].(status := Cancelled) else db.tasks[x])
  {
  }

  /** Attempts, turns and runs of the Project that have not ended are cancelled as of now; its schedules
      are disabled; nothing else changes. */
  lemma WorkAfterBegin(db: Tables, p: Id, now: Time, x: Id)
    requires p in db.projects
    ensures var db' := Begun(db, p, now);
            && db'.attempts.Keys == db.attempts.Keys && db'.turns.Keys == db.turns.Keys
            && db'.runs.Keys == db.runs.Keys && db'.schedules.Keys == db.schedules.Keys
            && (x in db.attempts ==>
                  db'.attempts[x] ==
                  if AttemptIn(db, db.attempts[x], p)
                     && db.attempts[x].status in {AttemptQueued, Preparing, Running, WaitingForInput, Review}
                  then Attempt(db.attempts[x].session, db.attempts[x].task, AttemptCancelled, Some(now))
                  else db.attempts[x])
            && (x in db.turns ==>
                  db'.turns[x] ==
                  if ConversationIn(db, db.turns[x].conversation, p) && db.turns[x].status in {TurnQueued, TurnRunning}
                  then Turn(db.turns[x].conversation, db.turns[x].agent, TurnCancelled, Some(now))
                  else db.turns[x])
            && (x in db.runs ==>
                  db'.runs[x] ==
                  if RunIn(db, x, db.runs[x], p) && db.runs[x].status in {RunRunning, RunWaiting}
                  then db.runs[x].(status := RunCancelled, endedAt := Some(now)) else db.runs[x])
            && (x in db.schedules ==>
                  db'.schedules[x] ==
                  if ScheduleIn(db, db.schedules[x], p)
                  then Schedule(db.schedules[x].agent, db.schedules[x].task, db.schedules[x].conversation, false)
                  else db.schedules[x])
  {
    if x in db.attempts {
      StatusesAreTerminalOrNot(db.attempts[x].status);
    }
  }

  lemma StatusesAreTerminalOrNot(s: AttemptStatus)
    ensures !Terminal(s) <==> s in {AttemptQueued, Preparing, Running, WaitingForInput, Review}
  {
    match s
    case AttemptQueued =>
    case Preparing =>
    case Running =>
    case WaitingForInput =>
    case Review =>
    case AttemptCompleted =>
    case AttemptFailed =>
    case AttemptCancelled =>
    case Interrupted =>
  }

  /** Which work belongs to a Project. */
  lemma WorkOfProject(db: Tables, p: Id, attempt: Attempt, turn: Turn, schedule: Schedule)
    ensures AttemptIn(db, attempt, p) <==>
            || (attempt.task.Some? && attempt.task.value in db.tasks && db.tasks[attempt.task.value].project == Some(p))
            || (attempt.session in db.sessions && db.sessions[attempt.session].agent in db.agents
                && db.agents[db.sessions[attempt.session].agent].project == Some(p))
    ensures ConversationIn(db, turn.conversation, p) <==>
            turn.conversation in db.conversations && db.conversations[turn.conversation].project == Some(p)
    ensures ScheduleIn(db, schedule, p) <==>
            || (schedule.agent in db.agents && db.agents[schedule.agent].project == Some(p))
            || (schedule.task.Some? && schedule.task.value in db.tasks
                && db.tasks[schedule.task.value].project == Some(p))
            || (schedule.conversation.Some? && schedule.conversation.value in db.conversations
                && db.conversations[schedule.conversation.value].project == Some(p))
  {
  }

  // ---- Moving an Agent ----

  /** The bulk updates of a move. */
  lemma RowsAfterMove(db: Tables, agent: Id, p: Id, x: Id)
    requires agent in db.agents
    ensures var db' := Moved(db, agent, p);
            && db'.agents == db.agents[agent := Agent(Some(p), db.agents[agent].stopped)]
            && db'.conversations.Keys == db.conversations.Keys && db'.tasks.Keys == db.tasks.Keys
            && (x in db.conversations ==>
                  db'.conversations[x] ==
                  Conversation(if (x, agent) in db.participants then Some(p) else db.conversations[x].project))
            && (x in db.tasks ==>
                  var was := db.tasks[x];
                  db'.tasks[x] ==
                  if || was.agent == Some(agent)
                     || (was.conversation.Some? && was.conversation.value in db.conversations
                         && (db.conversations[was.conversation.value].project == Some(p)
                             || (was.conversation.value, agent) in db.participants))
                  then was.(project := Some(p)) else was)
            && db' == db.(agents := db'.agents, conversations := db'.conversations, tasks := db'.tasks)
  {
  }

  /** After a move, a previous Project that no Agent, Conversation, Task or workflow names hands its
      notes to the target and disappears; otherwise nothing more happens. */
  lemma RowsAfterRetiring(db: Tables, previous: Id, p: Id, x: Id)
    ensures var db' := Retired(db, Some(previous), p);
            if || (exists a :: a in db.agents && db.agents[a].project == Some(previous))
               || (exists c :: c in db.conversations && db.conversations[c].project == Some(previous))
               || (exists t :: t in db.tasks && db.tasks[t].project == Some(previous))
               || (exists w :: w in db.workflows && db.workflows[w] == Some(previous))
            then db' == db
            else
              && (x in db'.projects <==> x in db.projects && x != previous)
              && (x in db'.notes <==> x in db.notes)
              && (x in db.notes ==> db'.notes[x] == if db.notes[x] == previous then p else db.notes[x])
              && (x in db'.runs <==> x in db.runs)
              && (x in db.runs ==>
                    db'.runs[x] ==
                    if db.runs[x].project == Some(previous) then db.runs[x].(project := None) else db.runs[x])
              && (forall b :: b in db'.bindings <==> b in db.bindings && b.project != previous)
  {
    if Vacant(db, previous) {
      var handed := db.(notes := MoveMemory(db.notes, previous, p));
      NoWorkflowsToDelete(handed, previous);
      RowAfterDeletion(handed, previous, x);
    }
  }

  /** Deleting the row of a Project without workflows. */
  lemma RowAfterDeletion(db: Tables, previous: Id, x: Id)
    requires forall w :: w in db.workflows ==> db.workflows[w] != Some(previous)
    ensures var db' := WithoutProject(db, previous);
            && (x in db'.projects <==> x in db.projects && x != previous)
            && db'.notes == db.notes && db'.workflows == db.workflows && db'.steps == db.steps
            && (x in db'.runs <==> x in db.runs)
            && (x in db.runs ==>
                  db'.runs[x] ==
                  if db.runs[x].project == Some(previous) then db.runs[x].(project := None) else db.runs[x])
            && (forall b :: b in db'.bindings <==> b in db.bindings && b.project != previous)
            && (forall w :: w in db'.projectWorkflows <==> w in db.projectWorkflows && w.0 != previous)
            && (forall s :: s in db'.syncStates <==> s in db.syncStates && s.0 != previous)
  {
    NoWorkflowsToDelete(db, previous);
  }

  /** An admitted move to another Project finds the Agent idle: none of its attempts prepares, runs or
      awaits review, none of its turns runs. */
  lemma AdmittedMoveIsIdle(db: Tables, p: Id, agent: Id)
    requires AssignDecision(db, p, agent).Ok? && db.agents[agent].project != Some(p)
    ensures forall x :: x in db.turns && db.turns[x].agent == agent ==> db.turns[x].status != TurnRunning
    ensures forall x :: x in db.attempts && db.attempts[x].session == agent ==>
              db.attempts[x].status !in {Preparing, Running, Review}
    ensures forall x :: x in db.attempts && db.attempts[x].task.Some? && db.attempts[x].task.value in db.tasks
                        && db.tasks[db.attempts[x].task.value].agent == Some(agent) ==>
              db.attempts[x].status !in {Preparing, Running, Review}
  {
  }

  /** It also finds no running or waiting workflow run of the previous Project, of a Conversation the
      Agent takes part in, with a step of one of its Tasks, or bound to it. */
  lemma AdmittedMoveLeavesNoRun(db: Tables, p: Id, agent: Id, x: Id)
    requires AssignDecision(db, p, agent).Ok? && db.agents[agent].project != Some(p)
    requires x in db.runs && db.runs[x].status in {RunRunning, RunWaiting}
    ensures db.runs[x].project.Some? ==> db.runs[x].project != db.agents[agent].project
    ensures db.runs[x].conversation.Some? ==> (db.runs[x].conversation.value, agent) !in db.participants
    ensures forall t :: (x, t) in db.steps && t in db.tasks ==> db.tasks[t].agent != Some(agent)
    ensures forall q :: Binding(x, agent, q) !in db.bindings
  {
    forall t | (x, t) in db.steps && t in db.tasks ensures db.tasks[t].agent != Some(agent) {
      assert (x, t).0 == x && (x, t).1 == t;
    }
    forall q ensures Binding(x, agent, q) !in db.bindings {
      assert Binding(x, agent, q).run == x && Binding(x, agent, q).agent == agent;
    }
  }

  /** The first refusal that applies is given: for the Projects, the Agent, then live work. */
  lemma RefusalsOfAMove(db: Tables, p: Id, agent: Id)
    ensures var decision := AssignDecision(db, p, agent);
            && (p !in db.projects ==> decision == Refused(ProjectNotFound))
            && (p in db.projects && db.projects[p].deletionStartedAt.Some? ==> decision == Refused(ProjectDeleting))
            && (p in db.projects && db.projects[p].deletionStartedAt.None? ==>
                  && (agent !in db.agents ==> decision == Refused(AgentNotFound))
                  && (agent in db.agents && db.agents[agent].project == Some(p) ==> decision == Ok)
                  && (agent in db.agents && db.agents[agent].project.Some? && db.agents[agent].project != Some(p)
                      && db.agents[agent].project.value in db.projects
                      && db.projects[db.agents[agent].project.value].deletionStartedAt.Some? ==>
                        decision == Refused(ProjectDeleting)))
  {
  }

  /** A running turn or attempt of the Agent alone is enough to refuse. */
  lemma LiveWorkRefusesMove(db: Tables, p: Id, agent: Id, x: Id)
    requires AcceptsWork(db, p).Ok? && agent in db.agents && db.agents[agent].project != Some(p)
    requires db.agents[agent].project.Some? ==> AcceptsWork(db, db.agents[agent].project.value).Ok?
    requires || (x in db.turns && db.turns[x].agent == agent && db.turns[x].status == TurnRunning)
             || (x in db.attempts && db.attempts[x].session == agent
                 && db.attempts[x].status in {Preparing, Running, Review})
    ensures AssignDecision(db, p, agent) == Refused(LiveTurn)
  {
  }

  /** And nothing else counts as live work: a refusal for it names an attempt or a turn of the Agent. */
  lemma LiveRefusalHasACause(db: Tables, p: Id, agent: Id)
    requires AssignDecision(db, p, agent) == Refused(LiveTurn)
    ensures || (exists x :: x in db.turns && db.turns[x].agent == agent && db.turns[x].status == TurnRunning)
            || (exists x :: x in db.attempts && db.attempts[x].status in {Preparing, Running, Review}
                            && (|| db.attempts[x].session == agent
                                || (db.attempts[x].task.Some? && db.attempts[x].task.value in db.tasks
                                    && db.tasks[db.attempts[x].task.value].agent == Some(agent))))
  {
  }

  /** A refusal for an active workflow names a running or waiting run that involves the Agent. */
  lemma WorkflowRefusalHasACause(db: Tables, p: Id, agent: Id)
    requires AssignDecision(db, p, agent) == Refused(ActiveWorkflow)
    ensures exists x ::
              && x in db.runs && db.runs[x].status in {RunRunning, RunWaiting}
              && (|| (db.runs[x].project.Some? && db.runs[x].project == db.agents[agent].project)
                  || (db.runs[x].conversation.Some? && (db.runs[x].conversation.value, agent) in db.participants)
                  || (exists t :: (x, t) in db.steps && t in db.tasks && db.tasks[t].agent == Some(agent))
                  || (exists q :: Binding(x, agent, q) in db.bindings))
  {
    var x :| x in db.runs && LiveRunStatus(db.runs[x].status)
             && (|| (db.agents[agent].project.Some? && db.runs[x].project == db.agents[agent].project)
                 || (db.runs[x].conversation.Some? && (db.runs[x].conversation.value, agent) in db.participants)
                 || (exists s | s in db.steps :: s.0 == x && s.1 in db.tasks && db.tasks[s.1].agent == Some(agent))
                 || (exists b | b in db.bindings :: b.run == x && b.agent == agent));
    if s :| s in db.steps && s.0 == x && s.1 in db.tasks && db.tasks[s.1].agent == Some(agent) {
      assert s == (x, s.1);
    }
    if b :| b in db.bindings && b.run == x && b.agent == agent {
      assert b == Binding(x, agent, b.project);
    }
  }

  // ---- Immediate deletion ----

  /** An unmarked Project goes iff no row of any counted table belongs to it. */
  lemma DeletedIffEmpty(db: Tables, p: Id)
    ensures DeleteDecision(db, p).Ok? <==>
            && p in db.projects && db.projects[p].deletionStartedAt.None?
            && (forall a :: a in db.agents ==> db.agents[a].project != Some(p))
            && (forall c :: c in db.conversations ==> db.conversations[c].project != Some(p))
            && (forall t :: t in db.tasks ==> db.tasks[t].project != Some(p))
            && (forall n :: n in db.notes ==> db.notes[n] != p)
            && (forall w :: w in db.workflows ==> db.workflows[w] != Some(p))
            && (forall x :: x in db.runs ==> db.runs[x].project != Some(p))
            && (forall x :: x in db.runs && db.runs[x].project.None? && db.runs[x].conversation.None? ==>
                  forall a :: Binding(x, a, p) !in db.bindings)
            && (forall s :: s in db.syncStates ==> s.0 != p)
            && (forall w :: w in db.projectWorkflows ==> w.0 != p)
  {
    forall x | x in db.runs ensures RunIn(db, x, db.runs[x], p) <==>
            || db.runs[x].project == Some(p)
            || (db.runs[x].conversation.Some? && db.runs[x].conversation.value in db.conversations
                && db.conversations[db.runs[x].conversation.value].project == Some(p))
            || UnscopedRunIn(db, x, p)
    {
      RunsOfProject(db, x, p);
    }
  }
}

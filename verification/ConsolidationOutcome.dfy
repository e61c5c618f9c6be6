/** What consolidation leaves in the tables, said row by row. */
module ConsolidationOutcome {
  import opened Options
  import opened TextOrder
  import opened Connectivity
  import opened Consolidation

  // ---- Which Project wins a component ----

  lemma NodeOfRow(db: Legacy, n: Node)
    requires n in Nodes(db)
    ensures n.item.Agent? ==> AgentRow(n.item.id, n.project) in db.agents
    ensures n.item.Conversation? ==> ConversationRow(n.item.id, n.project) in db.conversations
    ensures n.item.Task? ==> exists t :: t in db.tasks && t.id == n.item.id && t.project == n.project
  {
    var i :| 0 <= i < NodeCount(db) && NodeAt(db, i) == n;
    if i < |db.agents| {
      assert db.agents[i] in db.agents;
    } else if i < |db.agents| + |db.conversations| {
      assert db.conversations[i - |db.agents|] in db.conversations;
    } else {
      assert db.tasks[i - |db.agents| - |db.conversations|] in db.tasks;
    }
  }

  /** If Agents own Projects in the component of `o`, the Agent with the least id decides. */
  lemma LeastAgentDecides(db: Legacy, o: Object, a: AgentRow)
    requires PrimaryKeys(db) && a in db.agents && a.project.Some? && Connected(Links(db), o, Agent(a.id))
    requires forall b :: b in db.agents && b.project.Some? && Connected(Links(db), o, Agent(b.id)) ==>
               b.id == a.id || TextBelow(a.id, b.id)
    ensures Target(db, o) == a.project
  {
    var mine := CandidateOf(Agent(a.id), a.project.value);
    NodeOfAgent(db, a);
    assert AgentNode(a) in Nodes(db) && mine in Candidates(db, o);
    forall x | x in Candidates(db, o) ensures x == mine || CandidateBelow(mine, x) {
      var n :| n in Nodes(db) && n.project.Some? && Connected(Links(db), o, n.item)
               && x == CandidateOf(n.item, n.project.value);
      NodeOfRow(db, n);
      if n.item == Agent(a.id) {
        SameItemSameNode(db, n, AgentNode(a));
      }
    }
    TargetIsLeast(db, o, mine);
  }

  lemma SameItemSameNode(db: Legacy, m: Node, n: Node)
    requires PrimaryKeys(db) && m in Nodes(db) && n in Nodes(db) && m.item == n.item
    ensures m == n
  {
  }

  /** Some Conversation or Task of the component of `o` owns the Project. */
  ghost predicate OwnsWithoutAgent(db: Legacy, o: Object, p: Id) {
    || (exists c :: c in db.conversations && c.project == Some(p) && Connected(Links(db), o, Conversation(c.id)))
    || (exists t :: t in db.tasks && t.project == Some(p) && Connected(Links(db), o, Task(t.id)))
  }

  /** If no Agent owns a Project there, the least Project owned by a Conversation or Task wins. */
  lemma LeastProjectDecides(db: Legacy, o: Object, p: Id)
    requires forall b :: b in db.agents && b.project.Some? ==> !Connected(Links(db), o, Agent(b.id))
    requires OwnsWithoutAgent(db, o, p) && forall q :: OwnsWithoutAgent(db, o, q) ==> q == p || TextBelow(p, q)
    ensures Target(db, o) == Some(p)
  {
    var owner := OwnerNode(db, o, p);
    var mine := CandidateOf(owner.item, p);
    assert mine in Candidates(db, o);
    forall x | x in Candidates(db, o) ensures x == mine || CandidateBelow(mine, x) {
      var n :| n in Nodes(db) && n.project.Some? && Connected(Links(db), o, n.item)
               && x == CandidateOf(n.item, n.project.value);
      NodeOfRow(db, n);
      assert !n.item.Agent?;
      assert OwnsWithoutAgent(db, o, n.project.value);
    }
    TargetIsLeast(db, o, mine);
  }

  lemma OwnerNode(db: Legacy, o: Object, p: Id) returns (n: Node)
    requires OwnsWithoutAgent(db, o, p)
    ensures n in Nodes(db) && n.project == Some(p) && !n.item.Agent? && Connected(Links(db), o, n.item)
  {
    if c :| c in db.conversations && c.project == Some(p) && Connected(Links(db), o, Conversation(c.id)) {
      NodeOfConversation(db, c);
      n := ConversationNode(c);
    } else {
      var t :| t in db.tasks && t.project == Some(p) && Connected(Links(db), o, Task(t.id));
      NodeOfTask(db, t);
      n := TaskNode(t);
    }
  }

  /** A component without owners gets no Project. */
  lemma NobodyDecides(db: Legacy, o: Object)
    requires forall b :: b in db.agents && b.project.Some? ==> !Connected(Links(db), o, Agent(b.id))
    requires forall p :: !OwnsWithoutAgent(db, o, p)
    ensures Target(db, o) == None
  {
    if x :| x in Candidates(db, o) {
      var n :| n in Nodes(db) && n.project.Some? && Connected(Links(db), o, n.item);
      NodeOfRow(db, n);
      assert OwnsWithoutAgent(db, o, n.project.value);
    }
  }

  // ---- The tables afterwards ----

  /** Rows keep their place and every column but the owner, which is their component's. */
  lemma RowsAfterwards(db: Legacy)
    ensures var db' := Consolidated(db);
            && |db'.agents| == |db.agents| && |db'.conversations| == |db.conversations| && |db'.tasks| == |db.tasks|
            && (forall i :: 0 <= i < |db.agents| ==>
                  db'.agents[i] == AgentRow(db.agents[i].id, Target(db, Agent(db.agents[i].id))))
            && (forall i :: 0 <= i < |db.conversations| ==>
                  db'.conversations[i] ==
                  ConversationRow(db.conversations[i].id, Target(db, Conversation(db.conversations[i].id))))
            && (forall i :: 0 <= i < |db.tasks| ==>
                  var t := db.tasks[i];
                  db'.tasks[i] == TaskRow(t.id, t.agent, t.conversation, t.parent, Target(db, Task(t.id))))
            && db'.participants == db.participants
  {
  }

  /** The least owning Agent's Project is the Project of every row of its component. */
  lemma AgentDecidesForAll(db: Legacy, a: AgentRow)
    requires PrimaryKeys(db) && a in db.agents && a.project.Some?
    requires forall b :: b in db.agents && b.project.Some? && Connected(Links(db), Agent(a.id), Agent(b.id)) ==>
               b.id == a.id || TextBelow(a.id, b.id)
    ensures var db' := Consolidated(db);
            && |db'.agents| == |db.agents| && |db'.conversations| == |db.conversations| && |db'.tasks| == |db.tasks|
            && (forall i :: 0 <= i < |db.agents| && Connected(Links(db), Agent(a.id), Agent(db.agents[i].id)) ==>
                  db'.agents[i].project == a.project)
            && (forall i :: 0 <= i < |db.conversations|
                            && Connected(Links(db), Agent(a.id), Conversation(db.conversations[i].id)) ==>
                  db'.conversations[i].project == a.project)
            && (forall i :: 0 <= i < |db.tasks| && Connected(Links(db), Agent(a.id), Task(db.tasks[i].id)) ==>
                  db'.tasks[i].project == a.project)
  {
    NodeOfAgent(db, a);
    assert AgentNode(a) in Nodes(db);
    assert SameProject(db, Agent(a.id), Agent(a.id));
    LinkConnects(Links(db), Agent(a.id), Agent(a.id));
    LeastAgentDecides(db, Agent(a.id), a);
    RowsAfterwards(db);
    forall o | Connected(Links(db), Agent(a.id), o) ensures Target(db, o) == a.project {
      ConnectedShareTarget(db, Agent(a.id), o);
    }
  }

  /** A note follows the rows that own its Project; an unowned Project's notes stay. */
  lemma NotesAfterwards(db: Legacy, n: Id)
    ensures n in Consolidated(db).notes <==> n in db.notes
    ensures n in db.notes ==>
            var was, after := db.notes[n], Consolidated(db).notes[n];
            && (forall a :: a in db.agents && a.project == Some(was) ==> Target(db, Agent(a.id)) == Some(after))
            && (forall c :: c in db.conversations && c.project == Some(was) ==>
                  Target(db, Conversation(c.id)) == Some(after))
            && (forall t :: t in db.tasks && t.project == Some(was) ==> Target(db, Task(t.id)) == Some(after))
            && (was == after || exists o :: o in Nodes(db) && o.project == Some(was))
  {
    if n in db.notes {
      var was := db.notes[n];
      forall o | o in Nodes(db) && o.project == Some(was)
        ensures Target(db, o.item) == Some(Consolidated(db).notes[n])
      {
        ProjectTargetOf(db, o);
      }
      forall a | a in db.agents && a.project == Some(was) ensures AgentNode(a) in Nodes(db) { NodeOfAgent(db, a); }
      forall c | c in db.conversations && c.project == Some(was) ensures ConversationNode(c) in Nodes(db) {
        NodeOfConversation(db, c);
      }
      forall t | t in db.tasks && t.project == Some(was) ensures TaskNode(t) in Nodes(db) { NodeOfTask(db, t); }
    }
  }

  /** Exactly the Projects that some row or note still names are kept. */
  lemma ProjectsAfterwards(db: Legacy, p: Id)
    ensures var db' := Consolidated(db);
            p in db'.projects <==>
            && p in db.projects
            && (|| (exists a :: a in db'.agents && a.project == Some(p))
                || (exists c :: c in db'.conversations && c.project == Some(p))
                || (exists t :: t in db'.tasks && t.project == Some(p))
                || (exists n :: n in db'.notes && db'.notes[n] == p))
  {
    var db' := Consolidated(db);
    SameRowsSameHolders(WithProjects(db, o => Target(db, o)).(notes := db'.notes), db');
    if a :| a in db'.agents && a.project == Some(p) { NodeOfAgent(db', a); }
    if c :| c in db'.conversations && c.project == Some(p) { NodeOfConversation(db', c); }
    if t :| t in db'.tasks && t.project == Some(p) { NodeOfTask(db', t); }
    if n :| n in Nodes(db') && n.project == Some(p) { NodeOfRow(db', n); }
  }
}

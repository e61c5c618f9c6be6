/** Migration v34's consolidation of legacy Projects: every connected component of Agents,
    Conversations and Tasks ends in one Project. */
module Consolidation {
  import opened Options
  import opened TextOrder
  import opened Connectivity
  import opened LegacyComponents

  type Id = string

  datatype AgentRow = AgentRow(id: Id, project: Option<Id>)
  datatype ConversationRow = ConversationRow(id: Id, project: Option<Id>)
  datatype TaskRow = TaskRow(id: Id, agent: Option<Id>, conversation: Option<Id>, parent: Option<Id>,
                             project: Option<Id>)
  /** A `conversation_participants` row whose type is 'agent'. */
  datatype Participant = Participant(conversation: Id, agent: Id)

  datatype Legacy = Legacy(
    agents: seq<AgentRow>, conversations: seq<ConversationRow>, tasks: seq<TaskRow>,
    participants: seq<Participant>, notes: map<Id, Id>, projects: set<Id>)

  datatype Object = Agent(id: Id) | Conversation(id: Id) | Task(id: Id)

  datatype Node = Node(item: Object, project: Option<Id>)

  datatype Candidate = Candidate(priority: nat, key: Id, project: Id)

  datatype Result<+T> = Ok(value: T) | Err(project: Id)

  // ---- The tables as one list of nodes, in the migration's index order ----

  function AgentNode(row: AgentRow): Node { Node(Agent(row.id), row.project) }
  function ConversationNode(row: ConversationRow): Node { Node(Conversation(row.id), row.project) }
  function TaskNode(row: TaskRow): Node { Node(Task(row.id), row.project) }

  function NodeCount(db: Legacy): nat {
    |db.agents| + |db.conversations| + |db.tasks|
  }

  function NodeAt(db: Legacy, i: nat): Node
    requires i < NodeCount(db)
  {
    if i < |db.agents| then AgentNode(db.agents[i])
    else if i < |db.agents| + |db.conversations| then ConversationNode(db.conversations[i - |db.agents|])
    else TaskNode(db.tasks[i - |db.agents| - |db.conversations|])
  }

  function Nodes(db: Legacy): seq<Node> {
    seq(NodeCount(db), i requires 0 <= i < NodeCount(db) => NodeAt(db, i))
  }

  /** The primary keys of the three tables. */
  ghost predicate PrimaryKeys(db: Legacy) {
    Keyed(Nodes(db))
  }

  ghost predicate Keyed(nodes: seq<Node>) {
    forall i, j :: 0 <= i < |nodes| && 0 <= j < |nodes| && nodes[i].item == nodes[j].item ==> i == j
  }

  // ---- What the migration means by "connected" ----

  ghost predicate SameProject(db: Legacy, x: Object, y: Object) {
    exists p :: Node(x, Some(p)) in Nodes(db) && Node(y, Some(p)) in Nodes(db)
  }

  ghost predicate TaskNames(t: TaskRow, o: Object) {
    match o
    case Agent(id) => t.agent == Some(id)
    case Conversation(id) => t.conversation == Some(id)
    case Task(id) => t.parent == Some(id)
  }

  /** One row of the database makes x and y collaborate. */
  ghost predicate Collaborate(db: Legacy, x: Object, y: Object) {
    || (x.Conversation? && y.Agent? && Participant(x.id, y.id) in db.participants)
    || (exists t :: t in db.tasks && x == Task(t.id) && TaskNames(t, y))
    || SameProject(db, x, y)
  }

  ghost function Objects(db: Legacy): set<Object> {
    set n | n in Nodes(db) :: n.item
  }

  ghost function Links(db: Legacy): set<(Object, Object)> {
    set x, y | x in Objects(db) && y in Objects(db) && Collaborate(db, x, y) :: (x, y)
  }

  /** Agents are preferred by id; other owners stand for their own Project. */
  function CandidateOf(item: Object, project: Id): Candidate {
    if item.Agent? then Candidate(0, item.id, project) else Candidate(1, project, project)
  }

  predicate CandidateBelow(a: Candidate, b: Candidate) {
    || a.priority < b.priority
    || (a.priority == b.priority && TextBelow(a.key, b.key))
    || (a.priority == b.priority && a.key == b.key && TextBelow(a.project, b.project))
  }

  lemma CandidateOrder()
    ensures StrictTotalOrder(CandidateBelow)
  {
    TextIsStrictTotalOrder();
  }

  /** Every Project owned in the component of `o`, as a candidate target. */
  ghost function Candidates(db: Legacy, o: Object): set<Candidate> {
    set n | n in Nodes(db) && n.project.Some? && Connected(Links(db), o, n.item) :: CandidateOf(n.item, n.project.value)
  }

  ghost function Least(s: set<Candidate>): (least: Candidate)
    requires s != {}
    ensures IsLeast(CandidateBelow, s, least)
  {
    CandidateOrder();
    LeastExists(CandidateBelow, s);
    var least :| IsLeast(CandidateBelow, s, least);
    least
  }

  /** The Project of the least candidate of the component of `o`, if it owns any. */
  ghost function Target(db: Legacy, o: Object): Option<Id> {
    if Candidates(db, o) == {} then None else Some(Least(Candidates(db, o)).project)
  }

  lemma TargetIsLeast(db: Legacy, o: Object, least: Candidate)
    requires IsLeast(CandidateBelow, Candidates(db, o), least)
    ensures Target(db, o) == Some(least.project)
  {
    CandidateOrder();
    LeastUnique(CandidateBelow, Candidates(db, o), least, Least(Candidates(db, o)));
  }

  lemma TargetIsOwned(db: Legacy, o: Object) returns (n: Node)
    requires Target(db, o).Some?
    ensures n in Nodes(db) && n.project == Target(db, o) && Connected(Links(db), o, n.item)
  {
    var least := Least(Candidates(db, o));
    assert least in Candidates(db, o);
    n :| n in Nodes(db) && n.project.Some? && Connected(Links(db), o, n.item)
      && CandidateOf(n.item, n.project.value) == least;
  }

  lemma ConnectedShareTarget(db: Legacy, a: Object, b: Object)
    requires Connected(Links(db), a, b)
    ensures Target(db, a) == Target(db, b)
  {
    var links := Links(db);
    ConnectedSymmetric(links, a, b);
    forall n | n in Nodes(db)
      ensures Connected(links, a, n.item) <==> Connected(links, b, n.item)
    {
      if Connected(links, a, n.item) { ConnectedTransitive(links, b, a, n.item); }
      if Connected(links, b, n.item) { ConnectedTransitive(links, a, b, n.item); }
    }
    assert Candidates(db, a) == Candidates(db, b);
  }

  lemma OwnersConnected(db: Legacy, a: Node, b: Node)
    requires a in Nodes(db) && b in Nodes(db) && a.project.Some? && a.project == b.project
    ensures Connected(Links(db), a.item, b.item)
  {
    assert Node(a.item, Some(a.project.value)) in Nodes(db) && Node(b.item, Some(a.project.value)) in Nodes(db);
    LinkConnects(Links(db), a.item, b.item);
  }

  /** No object that had a Project loses it. */
  lemma OwnerKeepsAProject(db: Legacy, n: Node)
    requires n in Nodes(db) && n.project.Some?
    ensures Target(db, n.item).Some?
  {
    LinkConnects(Links(db), n.item, n.item);
    assert CandidateOf(n.item, n.project.value) in Candidates(db, n.item);
  }

  /** Distinct components get distinct targets. */
  lemma EqualTargetsConnected(db: Legacy, a: Object, b: Object)
    requires Target(db, a).Some? && Target(db, a) == Target(db, b)
    ensures Connected(Links(db), a, b)
  {
    var m := TargetIsOwned(db, a);
    var n := TargetIsOwned(db, b);
    OwnersConnected(db, m, n);
    ConnectedSymmetric(Links(db), b, n.item);
    ConnectedTransitive(Links(db), a, m.item, n.item);
    ConnectedTransitive(Links(db), a, n.item, b);
  }

  // ---- What consolidation does to the database ----

  /** Where the notes of Project `p` go: to the target of whoever owns `p`. */
  ghost function ProjectTarget(db: Legacy, p: Id): Id {
    if exists n :: n in Nodes(db) && n.project == Some(p) then
      var n :| n in Nodes(db) && n.project == Some(p);
      if Target(db, n.item).Some? then Target(db, n.item).value else p
    else p
  }

  lemma ProjectTargetOf(db: Legacy, n: Node)
    requires n in Nodes(db) && n.project.Some?
    ensures Target(db, n.item) == Some(ProjectTarget(db, n.project.value))
  {
    var p := n.project.value;
    var m :| m in Nodes(db) && m.project == Some(p)
             && ProjectTarget(db, p) == if Target(db, m.item).Some? then Target(db, m.item).value else p;
    OwnersConnected(db, m, n);
    ConnectedShareTarget(db, m.item, n.item);
    OwnerKeepsAProject(db, n);
  }

  /** Every target maps to itself. */
  lemma ProjectTargetIdempotent(db: Legacy, p: Id)
    ensures ProjectTarget(db, ProjectTarget(db, p)) == ProjectTarget(db, p)
  {
    if n :| n in Nodes(db) && n.project == Some(p) {
      ProjectTargetOf(db, n);
      var m := TargetIsOwned(db, n.item);
      ConnectedShareTarget(db, n.item, m.item);
      ProjectTargetOf(db, m);
    }
  }

  ghost predicate Held(db: Legacy, p: Id) {
    || (exists n :: n in Nodes(db) && n.project == Some(p))
    || p in db.notes.Values
  }

  ghost function WithProjects(db: Legacy, owner: Object -> Option<Id>): (moved: Legacy)
    ensures |moved.agents| == |db.agents| && |moved.conversations| == |db.conversations| && |moved.tasks| == |db.tasks|
  {
    db.(agents := seq(|db.agents|, i requires 0 <= i < |db.agents| =>
          db.agents[i].(project := owner(Agent(db.agents[i].id)))),
        conversations := seq(|db.conversations|, i requires 0 <= i < |db.conversations| =>
          db.conversations[i].(project := owner(Conversation(db.conversations[i].id)))),
        tasks := seq(|db.tasks|, i requires 0 <= i < |db.tasks| =>
          db.tasks[i].(project := owner(Task(db.tasks[i].id)))))
  }

  /** Every object gets its component's target, every note follows its Project, and Projects
      left without objects and notes are deleted. */
  ghost function Consolidated(db: Legacy): Legacy {
    var notes := map n | n in db.notes :: ProjectTarget(db, db.notes[n]);
    var moved := WithProjects(db, o => Target(db, o)).(notes := notes);
    moved.(projects := set p | p in db.projects && Held(moved, p))
  }

  lemma CollaboratorsShareTarget(db: Legacy, x: Object, y: Object)
    requires x in Objects(db) && y in Objects(db) && Collaborate(db, x, y)
    ensures Target(db, x) == Target(db, y)
  {
    LinkConnects(Links(db), x, y);
    ConnectedShareTarget(db, x, y);
  }

  lemma NodeOfAgent(db: Legacy, a: AgentRow)
    requires a in db.agents
    ensures AgentNode(a) in Nodes(db) && Agent(a.id) in Objects(db)
  {
    var i :| 0 <= i < |db.agents| && db.agents[i] == a;
    assert Nodes(db)[i] == AgentNode(a);
  }

  lemma NodeOfConversation(db: Legacy, c: ConversationRow)
    requires c in db.conversations
    ensures ConversationNode(c) in Nodes(db) && Conversation(c.id) in Objects(db)
  {
    var i :| 0 <= i < |db.conversations| && db.conversations[i] == c;
    assert Nodes(db)[|db.agents| + i] == ConversationNode(c);
  }

  lemma NodeOfTask(db: Legacy, t: TaskRow)
    requires t in db.tasks
    ensures TaskNode(t) in Nodes(db) && Task(t.id) in Objects(db)
  {
    var i :| 0 <= i < |db.tasks| && db.tasks[i] == t;
    assert Nodes(db)[|db.agents| + |db.conversations| + i] == TaskNode(t);
  }

  /** Consolidation rewrites only the owners: node i keeps its object and gets its target. */
  lemma ConsolidatedNodes(db: Legacy)
    ensures |Nodes(Consolidated(db))| == |Nodes(db)|
    ensures forall i :: 0 <= i < |Nodes(db)| ==>
            Nodes(Consolidated(db))[i] == Node(Nodes(db)[i].item, Target(db, Nodes(db)[i].item))
  {
    forall i: nat | i < NodeCount(db)
      ensures Nodes(Consolidated(db))[i] == Node(Nodes(db)[i].item, Target(db, Nodes(db)[i].item))
    {
      ConsolidatedNodeAt(db, i);
    }
  }

  lemma ConsolidatedNodeAt(db: Legacy, i: nat)
    requires i < NodeCount(db)
    ensures NodeCount(Consolidated(db)) == NodeCount(db)
    ensures NodeAt(Consolidated(db), i) == Node(NodeAt(db, i).item, Target(db, NodeAt(db, i).item))
  {
  }

  /** No object that had a Project is left without one. */
  lemma NoProjectLost(db: Legacy)
    ensures |Nodes(Consolidated(db))| == |Nodes(db)|
    ensures forall i :: 0 <= i < |Nodes(db)| && Nodes(db)[i].project.Some? ==>
                          Nodes(Consolidated(db))[i].item == Nodes(db)[i].item
                            && Nodes(Consolidated(db))[i].project.Some?
  {
    ConsolidatedNodes(db);
    forall i | 0 <= i < |Nodes(db)| && Nodes(db)[i].project.Some?
      ensures Nodes(Consolidated(db))[i].item == Nodes(db)[i].item && Nodes(Consolidated(db))[i].project.Some?
    {
      assert Nodes(db)[i] in Nodes(db);
      OwnerKeepsAProject(db, Nodes(db)[i]);
    }
  }

  lemma ConsolidatedNode(db: Legacy, n: Node)
    ensures n in Nodes(Consolidated(db)) <==> n.item in Objects(db) && n.project == Target(db, n.item)
  {
    ConsolidatedNodes(db);
    var nodes, nodes' := Nodes(db), Nodes(Consolidated(db));
    if n in nodes' {
      var i :| 0 <= i < |nodes'| && nodes'[i] == n;
      assert nodes[i] in nodes;
    }
    if n.item in Objects(db) && n.project == Target(db, n.item) {
      var m :| m in nodes && m.item == n.item;
      var i :| 0 <= i < |nodes| && nodes[i] == m;
      assert nodes'[i] == n;
    }
  }

  lemma ConsolidatedTask(db: Legacy, t: TaskRow) returns (source: TaskRow)
    requires t in Consolidated(db).tasks
    ensures source in db.tasks && t == source.(project := Target(db, Task(t.id)))
  {
    var i :| 0 <= i < |db.tasks| && Consolidated(db).tasks[i] == t;
    source := db.tasks[i];
  }

  /** After consolidation every linked pair of rows has the same optional Project. */
  lemma ConsolidationEstablishesBoundary(db: Legacy)
    ensures var db' := Consolidated(db);
            && (forall c, a ::
                  c in db'.conversations && a in db'.agents && Participant(c.id, a.id) in db'.participants ==>
                  c.project == a.project)
            && (forall t, a :: t in db'.tasks && a in db'.agents && t.agent == Some(a.id) ==> t.project == a.project)
            && (forall t, c :: t in db'.tasks && c in db'.conversations && t.conversation == Some(c.id) ==>
                  t.project == c.project)
            && (forall t, u :: t in db'.tasks && u in db'.tasks && t.parent == Some(u.id) ==> t.project == u.project)
  {
    var db' := Consolidated(db);
    forall a | a in db'.agents
      ensures Agent(a.id) in Objects(db) && a.project == Target(db, Agent(a.id))
    {
      NodeOfAgent(db', a);
      ConsolidatedNode(db, AgentNode(a));
    }
    forall c | c in db'.conversations
      ensures Conversation(c.id) in Objects(db) && c.project == Target(db, Conversation(c.id))
    {
      NodeOfConversation(db', c);
      ConsolidatedNode(db, ConversationNode(c));
    }
    forall c, a | c in db'.conversations && a in db'.agents && Participant(c.id, a.id) in db'.participants
      ensures c.project == a.project
    {
      CollaboratorsShareTarget(db, Conversation(c.id), Agent(a.id));
    }
    forall t, o | t in db'.tasks && o in Objects(db) && TaskNames(t, o)
      ensures t.project == Target(db, o)
    {
      var source := ConsolidatedTask(db, t);
      NodeOfTask(db, source);
      assert TaskNames(source, o);
      CollaboratorsShareTarget(db, Task(t.id), o);
    }
    forall t, u | t in db'.tasks && u in db'.tasks && t.parent == Some(u.id)
      ensures t.project == u.project
    {
      var source := ConsolidatedTask(db, u);
      NodeOfTask(db, source);
      assert TaskNames(t, Task(u.id));
    }
    assert forall t, a :: t in db'.tasks && a in db'.agents && t.agent == Some(a.id) ==> TaskNames(t, Agent(a.id));
    assert forall t, c :: t in db'.tasks && c in db'.conversations && t.conversation == Some(c.id) ==>
           TaskNames(t, Conversation(c.id));
  }

  // ---- Consolidating twice ----

  lemma ConsolidatedObjects(db: Legacy)
    ensures Objects(Consolidated(db)) == Objects(db)
  {
    var db' := Consolidated(db);
    forall o ensures o in Objects(db') <==> o in Objects(db) {
      ConsolidatedNode(db, Node(o, Target(db, o)));
      if n :| n in Nodes(db') && n.item == o {
        ConsolidatedNode(db, n);
      }
    }
  }

  lemma StructureUnchanged(db: Legacy, x: Object, y: Object)
    requires !SameProject(db, x, y)
    requires Collaborate(db, x, y)
    ensures Collaborate(Consolidated(db), x, y)
  {
    if t :| t in db.tasks && x == Task(t.id) && TaskNames(t, y) {
      var i :| 0 <= i < |db.tasks| && db.tasks[i] == t;
      var t' := Consolidated(db).tasks[i];
      assert t' in Consolidated(db).tasks && TaskNames(t', y);
    }
  }

  lemma OldLinksStayConnected(db: Legacy, x: Object, y: Object)
    requires (x, y) in Links(db)
    ensures Connected(Links(Consolidated(db)), x, y)
  {
    var db' := Consolidated(db);
    ConsolidatedObjects(db);
    if SameProject(db, x, y) {
      var p :| Node(x, Some(p)) in Nodes(db) && Node(y, Some(p)) in Nodes(db);
      OwnerKeepsAProject(db, Node(x, Some(p)));
      CollaboratorsShareTarget(db, x, y);
      ConsolidatedNode(db, Node(x, Target(db, x)));
      ConsolidatedNode(db, Node(y, Target(db, y)));
      OwnersConnected(db', Node(x, Target(db, x)), Node(y, Target(db, y)));
    } else {
      StructureUnchanged(db, x, y);
      LinkConnects(Links(db'), x, y);
    }
  }

  lemma NewLinksWereConnected(db: Legacy, x: Object, y: Object)
    requires (x, y) in Links(Consolidated(db))
    ensures Connected(Links(db), x, y)
  {
    var db' := Consolidated(db);
    ConsolidatedObjects(db);
    if SameProject(db', x, y) {
      var p :| Node(x, Some(p)) in Nodes(db') && Node(y, Some(p)) in Nodes(db');
      ConsolidatedNode(db, Node(x, Some(p)));
      ConsolidatedNode(db, Node(y, Some(p)));
      EqualTargetsConnected(db, x, y);
    } else {
      if t :| t in db'.tasks && x == Task(t.id) && TaskNames(t, y) {
        var source := ConsolidatedTask(db, t);
        assert TaskNames(source, y);
      }
      LinkConnects(Links(db), x, y);
    }
  }

  /** Consolidation neither splits nor joins components. */
  lemma ComponentsUnchanged(db: Legacy, a: Object, b: Object)
    ensures Connected(Links(Consolidated(db)), a, b) <==> Connected(Links(db), a, b)
  {
    var links, links' := Links(db), Links(Consolidated(db));
    forall e | e in links ensures Connected(links', e.0, e.1) { OldLinksStayConnected(db, e.0, e.1); }
    forall e | e in links' ensures Connected(links, e.0, e.1) { NewLinksWereConnected(db, e.0, e.1); }
    if Connected(links, a, b) { ConnectednessTransports(links, links', (o: Object) => o, a, b); }
    if Connected(links', a, b) { ConnectednessTransports(links', links, (o: Object) => o, a, b); }
  }

  lemma TargetStable(db: Legacy, o: Object)
    requires o in Objects(db)
    ensures Target(Consolidated(db), o) == Target(db, o)
  {
    var db' := Consolidated(db);
    forall n | n in Nodes(db') && Connected(Links(db'), o, n.item)
      ensures n.project == Target(db, o)
    {
      ConsolidatedNode(db, n);
      ComponentsUnchanged(db, o, n.item);
      ConnectedShareTarget(db, o, n.item);
    }
    ConsolidatedNode(db, Node(o, Target(db, o)));
    if Target(db, o).Some? {
      OwnerKeepsAProject(db', Node(o, Target(db, o)));
    }
    if Target(db', o).Some? {
      var n := TargetIsOwned(db', o);
    }
  }

  lemma ProjectTargetStable(db: Legacy, p: Id)
    requires p == ProjectTarget(db, p)
    ensures ProjectTarget(Consolidated(db), p) == p
  {
    var db' := Consolidated(db);
    if n :| n in Nodes(db') && n.project == Some(p) {
      ConsolidatedNode(db, n);
      TargetStable(db, n.item);
      ProjectTargetOf(db', n);
    }
  }

  /** Running the migration a second time changes no owner, no note and no Project. */
  lemma ConsolidationIsIdempotent(db: Legacy)
    ensures Consolidated(Consolidated(db)) == Consolidated(db)
  {
    var db' := Consolidated(db);
    var db'' := Consolidated(db');
    forall o | o in Objects(db) ensures Target(db', o) == Target(db, o) { TargetStable(db, o); }
    forall i | 0 <= i < |db.agents| ensures db''.agents[i] == db'.agents[i] { NodeOfAgent(db, db.agents[i]); }
    forall i | 0 <= i < |db.conversations|
      ensures db''.conversations[i] == db'.conversations[i] { NodeOfConversation(db, db.conversations[i]); }
    forall i | 0 <= i < |db.tasks| ensures db''.tasks[i] == db'.tasks[i] { NodeOfTask(db, db.tasks[i]); }
    forall n | n in db.notes ensures db''.notes[n] == db'.notes[n] {
      ProjectTargetIdempotent(db, db.notes[n]);
      ProjectTargetStable(db, db'.notes[n]);
    }
    assert db''.agents == db'.agents && db''.conversations == db'.conversations && db''.tasks == db'.tasks;
    assert db''.notes == db'.notes;
    assert db''.(projects := {}) == db'.(projects := {});
    SameRowsSameHolders(db'', db');
    SameRowsSameHolders(WithProjects(db, o => Target(db, o)).(notes := db'.notes), db');
    assert db''.projects == db'.projects;
  }

  lemma SameRowsSameHolders(a: Legacy, b: Legacy)
    requires a.(projects := {}) == b.(projects := {})
    ensures forall p :: Held(a, p) <==> Held(b, p)
  {
    assert Nodes(a) == Nodes(b);
  }

  // ---- Row order and references ----

  ghost predicate SameRows(a: Legacy, b: Legacy) {
    && (forall x :: x in a.agents <==> x in b.agents)
    && (forall x :: x in a.conversations <==> x in b.conversations)
    && (forall x :: x in a.tasks <==> x in b.tasks)
    && (forall x :: x in a.participants <==> x in b.participants)
  }

  lemma SameRowsSameNode(a: Legacy, b: Legacy, n: Node)
    requires SameRows(a, b)
    requires n in Nodes(a)
    ensures n in Nodes(b)
  {
    var i :| 0 <= i < |Nodes(a)| && Nodes(a)[i] == n;
    var k, l := |a.agents|, |a.conversations|;
    if i < k {
      NodeOfAgent(b, a.agents[i]);
    } else if i < k + l {
      NodeOfConversation(b, a.conversations[i - k]);
    } else {
      NodeOfTask(b, a.tasks[i - k - l]);
    }
  }

  /** The chosen target does not depend on the order in which rows are read. */
  lemma RowOrderIrrelevant(a: Legacy, b: Legacy, o: Object)
    requires SameRows(a, b)
    ensures Target(a, o) == Target(b, o)
  {
    forall n ensures n in Nodes(a) <==> n in Nodes(b) {
      if n in Nodes(a) { SameRowsSameNode(a, b, n); }
      if n in Nodes(b) { SameRowsSameNode(b, a, n); }
    }
    assert Objects(a) == Objects(b);
    forall x, y ensures Collaborate(a, x, y) <==> Collaborate(b, x, y) {}
    assert Links(a) == Links(b);
    assert Candidates(a, o) == Candidates(b, o);
  }

  /** Owners and notes name existing Projects. */
  ghost predicate References(db: Legacy) {
    && (forall n :: n in Nodes(db) && n.project.Some? ==> n.project.value in db.projects)
    && (forall n :: n in db.notes ==> db.notes[n] in db.projects)
  }

  /** Every note survives under an existing Project, and no deleted Project is still named. */
  lemma ReferencesSurvive(db: Legacy)
    requires References(db)
    ensures References(Consolidated(db))
    ensures Consolidated(db).notes.Keys == db.notes.Keys
    ensures forall p :: p in db.projects - Consolidated(db).projects ==> !Held(Consolidated(db), p)
  {
    var db' := Consolidated(db);
    SameRowsSameHolders(WithProjects(db, o => Target(db, o)).(notes := db'.notes), db');
    forall n | n in Nodes(db') && n.project.Some?
      ensures n.project.value in db'.projects
    {
      ConsolidatedNode(db, n);
      var owner := TargetIsOwned(db, n.item);
      assert Held(db', n.project.value);
    }
    forall n | n in db'.notes
      ensures db'.notes[n] in db'.projects
    {
      var p := db.notes[n];
      if owner :| owner in Nodes(db) && owner.project == Some(p) {
        ProjectTargetOf(db, owner);
        var m := TargetIsOwned(db, owner.item);
      }
      assert Held(db', db'.notes[n]);
    }
  }
}

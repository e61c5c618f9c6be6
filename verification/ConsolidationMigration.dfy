/** The migration's own loops over the union-find, proved to compute `Consolidated`. */
module ConsolidationMigration {
  import opened Options
  import opened TextOrder
  import opened Connectivity
  import opened LegacyComponents
  import opened Consolidation
  import opened ProjectMemory

  ghost predicate Indexes(nodes: seq<Node>, indexes: map<Object, nat>) {
    && (forall o :: o in indexes ==> indexes[o] < |nodes| && nodes[indexes[o]].item == o)
    && (forall i :: 0 <= i < |nodes| ==> nodes[i].item in indexes && indexes[nodes[i].item] == i)
  }

  method IndexNodes(nodes: seq<Node>) returns (indexes: map<Object, nat>)
    requires Keyed(nodes)
    ensures Indexes(nodes, indexes)
  {
    indexes := map[];
    for i := 0 to |nodes|
      invariant forall o :: o in indexes ==> indexes[o] < i && nodes[indexes[o]].item == o
      invariant forall j :: 0 <= j < i ==> nodes[j].item in indexes && indexes[nodes[j].item] == j
    {
      indexes := indexes[nodes[i].item := i];
    }
  }

  /** Every unioned pair of indexes is a link of the database. */
  ghost predicate Sound(links: set<(Object, Object)>, nodes: seq<Node>, edges: set<(nat, nat)>) {
    forall e :: e in edges ==> e.0 < |nodes| && e.1 < |nodes| && (nodes[e.0].item, nodes[e.1].item) in links
  }

  /** Every owner of a Project is its anchor or unioned with it. */
  ghost predicate Anchored(nodes: seq<Node>, anchors: map<Id, nat>, edges: set<(nat, nat)>, k: nat)
    requires k <= |nodes|
  {
    forall i: nat :: i < k && nodes[i].project.Some? ==>
      && nodes[i].project.value in anchors
      && (i == anchors[nodes[i].project.value] || (i, anchors[nodes[i].project.value]) in edges)
  }

  ghost predicate ParticipantUnioned(p: Participant, indexes: map<Object, nat>, edges: set<(nat, nat)>) {
    Conversation(p.conversation) in indexes && Agent(p.agent) in indexes ==>
      (indexes[Conversation(p.conversation)], indexes[Agent(p.agent)]) in edges
  }

  ghost predicate TaskUnioned(t: TaskRow, indexes: map<Object, nat>, edges: set<(nat, nat)>) {
    forall o :: o in indexes && Task(t.id) in indexes && TaskNames(t, o) ==> (indexes[Task(t.id)], indexes[o]) in edges
  }

  /** Unions the owners of one Project: each with the first owner found, the Project's anchor. */
  method AnchorProjects(ghost links: set<(Object, Object)>, nodes: seq<Node>, components: Components)
    returns (anchors: map<Id, nat>)
    requires components.Valid() && |components.roots| == |nodes| && Sound(links, nodes, components.edges)
    requires forall i, j ::
               && 0 <= i < |nodes| && 0 <= j < |nodes|
               && nodes[i].project.Some? && nodes[i].project == nodes[j].project
               ==> (nodes[i].item, nodes[j].item) in links
    modifies components, components.parents, components.ranks
    ensures components.Valid() && |components.roots| == |nodes| && Sound(links, nodes, components.edges)
    ensures Anchored(nodes, anchors, components.edges, |nodes|)
  {
    anchors := map[];
    for i := 0 to |nodes|
      invariant components.Valid() && |components.roots| == |nodes| && Sound(links, nodes, components.edges)
      invariant forall p :: p in anchors ==> anchors[p] < |nodes| && nodes[anchors[p]].project == Some(p)
      invariant Anchored(nodes, anchors, components.edges, i)
    {
      match nodes[i].project {
        case None =>
        case Some(p) =>
          if p in anchors {
            components.Union(i, anchors[p]);
          } else {
            anchors := anchors[p := i];
          }
      }
    }
  }

  method LinkParticipants(ghost links: set<(Object, Object)>, participants: seq<Participant>, nodes: seq<Node>,
                          indexes: map<Object, nat>, components: Components)
    requires components.Valid() && |components.roots| == |nodes| && Indexes(nodes, indexes)
             && Sound(links, nodes, components.edges)
    requires forall p :: p in participants && Conversation(p.conversation) in indexes && Agent(p.agent) in indexes
                         ==> (Conversation(p.conversation), Agent(p.agent)) in links
    modifies components, components.parents, components.ranks
    ensures components.Valid() && |components.roots| == |nodes| && Sound(links, nodes, components.edges)
    ensures components.edges >= old(components.edges)
    ensures forall p :: p in participants ==> ParticipantUnioned(p, indexes, components.edges)
  {
    for k := 0 to |participants|
      invariant components.Valid() && |components.roots| == |nodes| && Sound(links, nodes, components.edges)
      invariant components.edges >= old(components.edges)
      invariant forall i :: 0 <= i < k ==> ParticipantUnioned(participants[i], indexes, components.edges)
    {
      var p := participants[k];
      if Conversation(p.conversation) in indexes && Agent(p.agent) in indexes {
        components.Union(indexes[Conversation(p.conversation)], indexes[Agent(p.agent)]);
      }
    }
  }

  method UnionNamed(ghost links: set<(Object, Object)>, nodes: seq<Node>, indexes: map<Object, nat>,
                    components: Components, task: Object, named: Object)
    requires components.Valid() && |components.roots| == |nodes| && Indexes(nodes, indexes)
             && Sound(links, nodes, components.edges)
    requires task in indexes && (named in indexes ==> (task, named) in links)
    modifies components, components.parents, components.ranks
    ensures components.Valid() && |components.roots| == |nodes| && Sound(links, nodes, components.edges)
    ensures components.edges >= old(components.edges)
    ensures named in indexes ==> (indexes[task], indexes[named]) in components.edges
  {
    if named in indexes {
      components.Union(indexes[task], indexes[named]);
    }
  }

  method LinkTask(ghost links: set<(Object, Object)>, t: TaskRow, nodes: seq<Node>, indexes: map<Object, nat>,
                  components: Components)
    requires components.Valid() && |components.roots| == |nodes| && Indexes(nodes, indexes)
             && Sound(links, nodes, components.edges)
    requires Task(t.id) in indexes && forall o :: o in indexes && TaskNames(t, o) ==> (Task(t.id), o) in links
    modifies components, components.parents, components.ranks
    ensures components.Valid() && |components.roots| == |nodes| && Sound(links, nodes, components.edges)
    ensures components.edges >= old(components.edges)
    ensures TaskUnioned(t, indexes, components.edges)
  {
    if t.agent.Some? {
      UnionNamed(links, nodes, indexes, components, Task(t.id), Agent(t.agent.value));
    }
    if t.conversation.Some? {
      UnionNamed(links, nodes, indexes, components, Task(t.id), Conversation(t.conversation.value));
    }
    if t.parent.Some? {
      UnionNamed(links, nodes, indexes, components, Task(t.id), Task(t.parent.value));
    }
  }

  method LinkTasks(ghost links: set<(Object, Object)>, tasks: seq<TaskRow>, nodes: seq<Node>, indexes: map<Object, nat>,
                   components: Components)
    requires components.Valid() && |components.roots| == |nodes| && Indexes(nodes, indexes)
             && Sound(links, nodes, components.edges)
    requires forall t :: t in tasks ==> Task(t.id) in indexes
    requires forall t, o :: t in tasks && o in indexes && TaskNames(t, o) ==> (Task(t.id), o) in links
    modifies components, components.parents, components.ranks
    ensures components.Valid() && |components.roots| == |nodes| && Sound(links, nodes, components.edges)
    ensures components.edges >= old(components.edges)
    ensures forall t :: t in tasks ==> TaskUnioned(t, indexes, components.edges)
  {
    for k := 0 to |tasks|
      invariant components.Valid() && |components.roots| == |nodes| && Sound(links, nodes, components.edges)
      invariant components.edges >= old(components.edges)
      invariant forall i :: 0 <= i < k ==> TaskUnioned(tasks[i], indexes, components.edges)
    {
      LinkTask(links, tasks[k], nodes, indexes, components);
    }
  }

  lemma SameAnchorConnected(nodes: seq<Node>, anchors: map<Id, nat>, edges: set<(nat, nat)>, i: nat, j: nat)
    requires Anchored(nodes, anchors, edges, |nodes|)
    requires i < |nodes| && j < |nodes| && nodes[i].project.Some? && nodes[i].project == nodes[j].project
    ensures Connected(edges, i, j)
  {
    var anchor := anchors[nodes[i].project.value];
    LinkConnects(edges, i, anchor);
    LinkConnects(edges, j, anchor);
    ConnectedSymmetric(edges, j, anchor);
    ConnectedTransitive(edges, i, anchor, j);
  }

  lemma EdgesAreComplete(db: Legacy, nodes: seq<Node>, indexes: map<Object, nat>, anchors: map<Id, nat>,
                         edges: set<(nat, nat)>, x: Object, y: Object)
    requires nodes == Nodes(db) && Indexes(nodes, indexes) && Anchored(nodes, anchors, edges, |nodes|)
    requires forall p :: p in db.participants ==> ParticipantUnioned(p, indexes, edges)
    requires forall t :: t in db.tasks ==> TaskUnioned(t, indexes, edges)
    requires (x, y) in Links(db)
    ensures x in indexes && y in indexes && Connected(edges, indexes[x], indexes[y])
  {
    assert x in indexes && y in indexes;
    if SameProject(db, x, y) {
      var p :| Node(x, Some(p)) in nodes && Node(y, Some(p)) in nodes;
      SameAnchorConnected(nodes, anchors, edges, indexes[x], indexes[y]);
    } else {
      LinkConnects(edges, indexes[x], indexes[y]);
    }
  }

  /** The union-find over indexes has exactly the components of the database. */
  lemma ComponentsMatch(db: Legacy, nodes: seq<Node>, indexes: map<Object, nat>, anchors: map<Id, nat>,
                        edges: set<(nat, nat)>, i: nat, j: nat)
    requires nodes == Nodes(db) && Indexes(nodes, indexes) && Sound(Links(db), nodes, edges)
             && Anchored(nodes, anchors, edges, |nodes|)
    requires forall p :: p in db.participants ==> ParticipantUnioned(p, indexes, edges)
    requires forall t :: t in db.tasks ==> TaskUnioned(t, indexes, edges)
    requires i < |nodes| && j < |nodes|
    ensures Connected(edges, i, j) <==> Connected(Links(db), nodes[i].item, nodes[j].item)
  {
    var item := (k: nat) => if k < |nodes| then nodes[k].item else Agent("");
    var index := (o: Object) => if o in indexes then indexes[o] else 0;
    if Connected(edges, i, j) {
      forall e | e in edges ensures Connected(Links(db), item(e.0), item(e.1)) {
        LinkConnects(Links(db), item(e.0), item(e.1));
      }
      ConnectednessTransports(edges, Links(db), item, i, j);
    }
    if Connected(Links(db), nodes[i].item, nodes[j].item) {
      forall e | e in Links(db) ensures Connected(edges, index(e.0), index(e.1)) {
        EdgesAreComplete(db, nodes, indexes, anchors, edges, e.0, e.1);
      }
      ConnectednessTransports(Links(db), edges, index, nodes[i].item, nodes[j].item);
    }
  }

  /** The candidates of the first k nodes in the class of root r. */
  ghost function ClassCandidates(nodes: seq<Node>, roots: seq<nat>, r: nat, k: nat): set<Candidate>
    requires k <= |nodes| == |roots|
  {
    set i | 0 <= i < k && roots[i] == r && nodes[i].project.Some? :: CandidateOf(nodes[i].item, nodes[i].project.value)
  }

  /** Each root's entry is the least candidate of its class. */
  ghost predicate LeastSoFar(nodes: seq<Node>, roots: seq<nat>, targets: map<nat, Candidate>, k: nat)
    requires k <= |nodes| == |roots|
  {
    forall r: nat :: if r in targets then IsLeast(CandidateBelow, ClassCandidates(nodes, roots, r, k), targets[r])
                     else ClassCandidates(nodes, roots, r, k) == {}
  }

  lemma LeastStep(nodes: seq<Node>, roots: seq<nat>, before: map<nat, Candidate>, after: map<nat, Candidate>, k: nat,
                  candidate: Candidate)
    requires k < |nodes| == |roots| && nodes[k].project.Some?
             && candidate == CandidateOf(nodes[k].item, nodes[k].project.value)
    requires LeastSoFar(nodes, roots, before, k)
    requires after == if roots[k] !in before || CandidateBelow(candidate, before[roots[k]])
             then before[roots[k] := candidate] else before
    ensures LeastSoFar(nodes, roots, after, k + 1)
  {
    CandidateOrder();
    forall r: nat
      ensures if r in after then IsLeast(CandidateBelow, ClassCandidates(nodes, roots, r, k + 1), after[r])
              else ClassCandidates(nodes, roots, r, k + 1) == {}
    {
      var upTo, including := ClassCandidates(nodes, roots, r, k), ClassCandidates(nodes, roots, r, k + 1);
      assert including == if r == roots[k] then upTo + {candidate} else upTo;
    }
  }

  lemma UnownedStep(nodes: seq<Node>, roots: seq<nat>, targets: map<nat, Candidate>, k: nat)
    requires k < |nodes| == |roots| && nodes[k].project.None?
    requires LeastSoFar(nodes, roots, targets, k)
    ensures LeastSoFar(nodes, roots, targets, k + 1)
  {
  }

  /** `consider_target` over every owned node. */
  method ComponentTargets(nodes: seq<Node>, components: Components) returns (targets: map<nat, Candidate>)
    requires components.Valid() && |components.roots| == |nodes|
    modifies components.parents
    ensures components.Valid()
    ensures LeastSoFar(nodes, components.roots, targets, |nodes|)
  {
    targets := map[];
    for i := 0 to |nodes|
      invariant components.Valid()
      invariant LeastSoFar(nodes, components.roots, targets, i)
    {
      if nodes[i].project.Some? {
        var root := components.Find(i);
        var candidate := CandidateOf(nodes[i].item, nodes[i].project.value);
        ghost var before := targets;
        if root !in targets || CandidateBelow(candidate, targets[root]) {
          targets := targets[root := candidate];
        }
        LeastStep(nodes, components.roots, before, targets, i, candidate);
      } else {
        UnownedStep(nodes, components.roots, targets, i);
      }
    }
  }

  lemma CandidatesFromRoots(db: Legacy, nodes: seq<Node>, roots: seq<nat>, i: nat)
    requires nodes == Nodes(db) && |roots| == |nodes| && i < |nodes|
    requires forall j :: 0 <= j < |nodes| ==>
             (roots[i] == roots[j] <==> Connected(Links(db), nodes[i].item, nodes[j].item))
    ensures Candidates(db, nodes[i].item) == ClassCandidates(nodes, roots, roots[i], |nodes|)
  {
  }

  /** The component's entry is the database-level target, whatever the order of the unions. */
  lemma RootsGiveTargets(db: Legacy, nodes: seq<Node>, indexes: map<Object, nat>, anchors: map<Id, nat>,
                         edges: set<(nat, nat)>,
                         roots: seq<nat>, targets: map<nat, Candidate>, i: nat)
    requires nodes == Nodes(db) && Indexes(nodes, indexes) && Sound(Links(db), nodes, edges)
             && Anchored(nodes, anchors, edges, |nodes|)
    requires forall p :: p in db.participants ==> ParticipantUnioned(p, indexes, edges)
    requires forall t :: t in db.tasks ==> TaskUnioned(t, indexes, edges)
    requires |roots| == |nodes| && Partition(roots, edges) && LeastSoFar(nodes, roots, targets, |nodes|)
    requires i < |nodes|
    ensures Target(db, nodes[i].item) == if roots[i] in targets then Some(targets[roots[i]].project) else None
  {
    forall j: nat | j < |nodes|
      ensures roots[i] == roots[j] <==> Connected(Links(db), nodes[i].item, nodes[j].item)
    {
      SameRootIffConnected(roots, edges, i, j);
      ComponentsMatch(db, nodes, indexes, anchors, edges, i, j);
    }
    CandidatesFromRoots(db, nodes, roots, i);
    if roots[i] in targets {
      TargetIsLeast(db, nodes[i].item, targets[roots[i]]);
    }
  }

  /** `record_project_target`: a source Project may have only one target. */
  function RecordTarget(recorded: map<Id, Id>, source: Option<Id>, target: Id): (r: Result<map<Id, Id>>)
    ensures r.Err? <==> source.Some? && source.value in recorded && recorded[source.value] != target
    ensures r.Ok? && source.Some? ==> r.value == recorded[source.value := target]
    ensures r.Ok? && source.None? ==> r.value == recorded
  {
    match source
    case None => Ok(recorded)
    case Some(p) =>
      if p in recorded then (if recorded[p] != target then Err(p)
                             else assert recorded == recorded[p := target]; Ok(recorded))
      else Ok(recorded[p := target])
  }

  /** The updates and moves of the first k nodes, for given owners and Project targets. */
  ghost predicate Collected(owner: Object -> Option<Id>, home: Id -> Id, nodes: seq<Node>, k: nat,
                            recorded: map<Id, Id>, updates: map<Object, Id>)
    requires k <= |nodes|
  {
    && (forall i :: 0 <= i < k && owner(nodes[i].item).Some? ==> nodes[i].item in updates)
    && (forall o :: o in updates ==> owner(o) == Some(updates[o]))
    && (forall i :: 0 <= i < k && nodes[i].project.Some? ==> nodes[i].project.value in recorded)
    && (forall p :: p in recorded ==> recorded[p] == home(p))
  }

  lemma CollectStep(owner: Object -> Option<Id>, home: Id -> Id, nodes: seq<Node>, k: nat, recorded: map<Id, Id>,
                    updates: map<Object, Id>, target: Id)
    requires k < |nodes| && Collected(owner, home, nodes, k, recorded, updates) && owner(nodes[k].item) == Some(target)
    requires nodes[k].project.Some? ==> home(nodes[k].project.value) == target
    ensures var r := RecordTarget(recorded, nodes[k].project, target);
            r.Ok? && Collected(owner, home, nodes, k + 1, r.value, updates[nodes[k].item := target])
  {
  }

  /** Collect the row updates and the Project moves. The conflict error cannot arise. */
  lemma CollectSkip(owner: Object -> Option<Id>, home: Id -> Id, nodes: seq<Node>, k: nat, recorded: map<Id, Id>,
                    updates: map<Object, Id>)
    requires k < |nodes| && Collected(owner, home, nodes, k, recorded, updates)
    requires owner(nodes[k].item).None? && nodes[k].project.None?
    ensures Collected(owner, home, nodes, k + 1, recorded, updates)
  {
  }

  method CollectUpdates(ghost owner: Object -> Option<Id>, ghost home: Id -> Id, nodes: seq<Node>,
                        components: Components, targets: map<nat, Candidate>)
    returns (result: Result<map<Id, Id>>, updates: map<Object, Id>)
    requires components.Valid() && |components.roots| == |nodes|
    requires forall i :: 0 <= i < |nodes| ==>
             owner(nodes[i].item) == if components.roots[i] in targets then Some(targets[components.roots[i]].project)
               else None
    requires forall i :: 0 <= i < |nodes| && nodes[i].project.Some? ==>
             owner(nodes[i].item) == Some(home(nodes[i].project.value))
    modifies components.parents
    ensures result.Ok?
    ensures Collected(owner, home, nodes, |nodes|, result.value, updates)
  {
    result, updates := Ok(map[]), map[];
    var i := 0;
    while i < |nodes| && result.Ok?
      invariant 0 <= i <= |nodes| && components.Valid()
      invariant result.Ok?
      invariant Collected(owner, home, nodes, i, result.value, updates)
    {
      var root := components.Find(i);
      ghost var recorded0, updates0 := result.value, updates;
      if root in targets {
        var target := targets[root].project;
        result := RecordTarget(result.value, nodes[i].project, target);
        updates := updates[nodes[i].item := target];
        CollectStep(owner, home, nodes, i, recorded0, updates0, target);
      } else {
        CollectSkip(owner, home, nodes, i, recorded0, updates0);
      }
      i := i + 1;
    }
  }

  // ---- Memory moves ----

  /** The moves one after another, in the given order of sources. */
  function MoveAll(notes: map<Id, Id>, targets: map<Id, Id>, order: seq<Id>): map<Id, Id>
    requires forall p :: p in order ==> p in targets
    decreases |order|
  {
    if order == [] then notes
    else
      var last := order[|order| - 1];
      MoveMemory(MoveAll(notes, targets, order[..|order| - 1]), last, targets[last])
  }

  /** All notes of the given sources re-owned at the same moment. */
  ghost function MovedAtOnce(notes: map<Id, Id>, targets: map<Id, Id>, sources: set<Id>): map<Id, Id>
    requires sources <= targets.Keys
  {
    map n | n in notes :: if notes[n] in sources then targets[notes[n]] else notes[n]
  }

  ghost predicate TargetsMapToThemselves(targets: map<Id, Id>) {
    forall p :: p in targets && targets[p] in targets ==> targets[targets[p]] == targets[p]
  }

  /** When every target maps to itself, moves in any order equal one simultaneous re-owning. */
  lemma MoveAllStep(notes: map<Id, Id>, targets: map<Id, Id>, order: seq<Id>, k: nat)
    requires (forall p :: p in order ==> p in targets) && k < |order|
    ensures MoveAll(notes, targets, order[..k + 1]) ==
            MoveMemory(MoveAll(notes, targets, order[..k]), order[k], targets[order[k]])
  {
    assert order[..k + 1][..k] == order[..k] && order[..k + 1][k] == order[k];
  }

  lemma MoveOneMore(notes: map<Id, Id>, targets: map<Id, Id>, moved: set<Id>, last: Id)
    requires TargetsMapToThemselves(targets) && moved <= targets.Keys && last in targets && last !in moved
    ensures MoveMemory(MovedAtOnce(notes, targets, moved), last, targets[last]) ==
            MovedAtOnce(notes, targets, moved + {last})
  {
  }

  lemma {:induction false} SequentialMovesAreSimultaneous(notes: map<Id, Id>, targets: map<Id, Id>, order: seq<Id>)
    requires forall p :: p in order ==> p in targets
    requires forall i, j :: 0 <= i < j < |order| ==> order[i] != order[j]
    requires TargetsMapToThemselves(targets)
    ensures MoveAll(notes, targets, order) == MovedAtOnce(notes, targets, set p | p in order)
    decreases |order|
  {
    if order != [] {
      var rest, last := order[..|order| - 1], order[|order| - 1];
      assert order == rest + [last];
      SequentialMovesAreSimultaneous(notes, targets, rest);
      MoveOneMore(notes, targets, (set p | p in rest), last);
      assert (set p | p in order) == (set p | p in rest) + {last};
    }
  }

  lemma RecordedTargetsMapToThemselves(db: Legacy, recorded: map<Id, Id>)
    requires forall p :: p in recorded ==> recorded[p] == ProjectTarget(db, p)
    ensures TargetsMapToThemselves(recorded)
  {
    forall p | p in recorded && recorded[p] in recorded
      ensures recorded[recorded[p]] == recorded[p]
    {
      ProjectTargetIdempotent(db, p);
    }
  }

  ghost function OwnerIn(db: Legacy): Object -> Option<Id> { (o: Object) => Target(db, o) }

  ghost function HomeIn(db: Legacy): Id -> Id { (p: Id) => ProjectTarget(db, p) }

  lemma MovedNotes(db: Legacy, recorded: map<Id, Id>, updates: map<Object, Id>)
    requires Collected(OwnerIn(db), HomeIn(db), Nodes(db), |Nodes(db)|, recorded, updates)
    ensures TargetsMapToThemselves(recorded)
    ensures MovedAtOnce(db.notes, recorded, recorded.Keys) == Consolidated(db).notes
  {
    forall p | p in recorded ensures recorded[p] == ProjectTarget(db, p) { assert recorded[p] == HomeIn(db)(p); }
    RecordedTargetsMapToThemselves(db, recorded);
    forall n | n in db.notes && db.notes[n] !in recorded
      ensures ProjectTarget(db, db.notes[n]) == db.notes[n]
    {
      assert !exists m :: m in Nodes(db) && m.project == Some(db.notes[n]);
    }
  }

  lemma LinksOfRows(db: Legacy, nodes: seq<Node>, indexes: map<Object, nat>)
    requires nodes == Nodes(db) && Indexes(nodes, indexes)
    ensures forall i, j ::
              && 0 <= i < |nodes| && 0 <= j < |nodes|
              && nodes[i].project.Some? && nodes[i].project == nodes[j].project
              ==> (nodes[i].item, nodes[j].item) in Links(db)
    ensures forall p :: p in db.participants && Conversation(p.conversation) in indexes && Agent(p.agent) in indexes
                        ==> (Conversation(p.conversation), Agent(p.agent)) in Links(db)
    ensures forall t :: t in db.tasks ==> Task(t.id) in indexes
    ensures forall t, o :: t in db.tasks && o in indexes && TaskNames(t, o) ==> (Task(t.id), o) in Links(db)
  {
    forall o | o in indexes ensures o in Objects(db) { assert nodes[indexes[o]] in nodes; }
    forall i, j | 0 <= i < |nodes| && 0 <= j < |nodes| && nodes[i].project.Some? && nodes[i].project == nodes[j].project
      ensures (nodes[i].item, nodes[j].item) in Links(db)
    {
      var p := nodes[i].project.value;
      assert nodes[i] in nodes && nodes[j] in nodes;
      assert nodes[i] == Node(nodes[i].item, Some(p)) && nodes[j] == Node(nodes[j].item, Some(p));
    }
    forall t | t in db.tasks ensures Task(t.id) in indexes { NodeOfTask(db, t); }
    forall p | p in db.participants && Conversation(p.conversation) in indexes && Agent(p.agent) in indexes
      ensures (Conversation(p.conversation), Agent(p.agent)) in Links(db)
    {
      assert p == Participant(p.conversation, p.agent);
    }
  }

  lemma OwnersHaveHomes(db: Legacy, nodes: seq<Node>, i: nat)
    requires nodes == Nodes(db) && i < |nodes| && nodes[i].project.Some?
    ensures Target(db, nodes[i].item) == Some(ProjectTarget(db, nodes[i].project.value))
  {
    assert nodes[i] in nodes;
    ProjectTargetOf(db, nodes[i]);
  }

  /** Everything up to the writes: unions, targets, updates. */
  lemma RootsGiveOwners(db: Legacy, nodes: seq<Node>, indexes: map<Object, nat>, anchors: map<Id, nat>,
                        edges: set<(nat, nat)>, roots: seq<nat>, targets: map<nat, Candidate>)
    requires nodes == Nodes(db) && Indexes(nodes, indexes) && Sound(Links(db), nodes, edges)
             && Anchored(nodes, anchors, edges, |nodes|)
    requires forall p :: p in db.participants ==> ParticipantUnioned(p, indexes, edges)
    requires forall t :: t in db.tasks ==> TaskUnioned(t, indexes, edges)
    requires |roots| == |nodes| && Partition(roots, edges) && LeastSoFar(nodes, roots, targets, |nodes|)
    ensures forall i :: 0 <= i < |nodes| ==>
              OwnerIn(db)(nodes[i].item) == if roots[i] in targets then Some(targets[roots[i]].project) else None
    ensures forall i :: 0 <= i < |nodes| && nodes[i].project.Some? ==>
              OwnerIn(db)(nodes[i].item) == Some(HomeIn(db)(nodes[i].project.value))
  {
    forall i: nat | i < |nodes|
      ensures OwnerIn(db)(nodes[i].item) == if roots[i] in targets then Some(targets[roots[i]].project) else None
      ensures nodes[i].project.Some? ==> OwnerIn(db)(nodes[i].item) == Some(HomeIn(db)(nodes[i].project.value))
    {
      if nodes[i].project.Some? {
        OwnersHaveHomes(db, nodes, i);
      }
      RootsGiveTargets(db, nodes, indexes, anchors, edges, roots, targets, i);
    }
  }

  method Plan(db: Legacy) returns (recorded: Result<map<Id, Id>>, updates: map<Object, Id>)
    requires PrimaryKeys(db) && NodeCount(db) < USIZE_LIMIT
    ensures recorded.Ok?
    ensures Collected(OwnerIn(db), HomeIn(db), Nodes(db), |Nodes(db)|, recorded.value, updates)
  {
    var nodes := Nodes(db);
    var indexes := IndexNodes(nodes);
    var components := new Components(|nodes|);
    LinksOfRows(db, nodes, indexes);
    ghost var anchors := AnchorProjects(Links(db), nodes, components);
    LinkParticipants(Links(db), db.participants, nodes, indexes, components);
    LinkTasks(Links(db), db.tasks, nodes, indexes, components);
    var targets := ComponentTargets(nodes, components);
    RootsGiveOwners(db, nodes, indexes, anchors, components.edges, components.roots, targets);
    recorded, updates := CollectUpdates(OwnerIn(db), HomeIn(db), nodes, components, targets);
  }

  lemma OwnersAfterUpdates(db: Legacy, recorded: map<Id, Id>, updates: map<Object, Id>)
    requires Collected(OwnerIn(db), HomeIn(db), Nodes(db), |Nodes(db)|, recorded, updates)
    ensures forall a :: a in db.agents ==>
            OwnerIn(db)(Agent(a.id)) == if Agent(a.id) in updates then Some(updates[Agent(a.id)]) else a.project
    ensures forall c :: c in db.conversations ==>
            OwnerIn(db)(Conversation(c.id)) == if Conversation(c.id) in updates then Some(updates[Conversation(c.id)])
              else c.project
    ensures forall t :: t in db.tasks ==>
            OwnerIn(db)(Task(t.id)) == if Task(t.id) in updates then Some(updates[Task(t.id)]) else t.project
  {
    forall n | n in Nodes(db)
      ensures OwnerIn(db)(n.item) == if n.item in updates then Some(updates[n.item]) else n.project
    {
      var i :| 0 <= i < |Nodes(db)| && Nodes(db)[i] == n;
      if n.project.Some? { OwnerKeepsAProject(db, n); }
    }
    forall a | a in db.agents ensures AgentNode(a) in Nodes(db) { NodeOfAgent(db, a); }
    forall c | c in db.conversations ensures ConversationNode(c) in Nodes(db) { NodeOfConversation(db, c); }
    forall t | t in db.tasks ensures TaskNode(t) in Nodes(db) { NodeOfTask(db, t); }
  }

  lemma ConsolidatedByOwners(db: Legacy)
    ensures WithProjects(db, OwnerIn(db)).(notes := Consolidated(db).notes, projects := Consolidated(db).projects) ==
            Consolidated(db)
    ensures Consolidated(db).projects == set p | p in db.projects
            && Held(WithProjects(db, OwnerIn(db)).(notes := Consolidated(db).notes), p)
  {
  }

  class LegacyDatabase {
    var agents: seq<AgentRow>
    var conversations: seq<ConversationRow>
    var tasks: seq<TaskRow>
    var participants: seq<Participant>
    var notes: map<Id, Id>
    var projects: set<Id>

    function Snapshot(): Legacy
      reads this
    {
      Legacy(agents, conversations, tasks, participants, notes, projects)
    }

    predicate StillHeld(p: Id)
      reads this
    {
      || (exists a | a in agents :: a.project == Some(p))
      || (exists c | c in conversations :: c.project == Some(p))
      || (exists t | t in tasks :: t.project == Some(p))
      || (exists n | n in notes :: notes[n] == p)
    }

    lemma StillHeldIsHeld(p: Id)
      ensures StillHeld(p) <==> Held(Snapshot(), p)
    {
      var db := Snapshot();
      if a :| a in agents && a.project == Some(p) { NodeOfAgent(db, a); }
      if c :| c in conversations && c.project == Some(p) { NodeOfConversation(db, c); }
      if t :| t in tasks && t.project == Some(p) { NodeOfTask(db, t); }
      if n :| n in Nodes(db) && n.project == Some(p) {
        var i :| 0 <= i < NodeCount(db) && NodeAt(db, i) == n;
        if i < |agents| {
          assert agents[i] in agents;
        } else if i < |agents| + |conversations| {
          assert conversations[i - |agents|] in conversations;
        } else {
          assert tasks[i - |agents| - |conversations|] in tasks;
        }
      }
    }

    /** The sorted memory moves. */
    method MoveNotes(recorded: map<Id, Id>)
      requires TargetsMapToThemselves(recorded)
      modifies this`notes
      ensures notes == MovedAtOnce(old(notes), recorded, recorded.Keys)
    {
      var order := SortKeys(recorded.Keys);
      for k := 0 to |order|
        invariant notes == MoveAll(old(notes), recorded, order[..k])
      {
        MoveAllStep(old(notes), recorded, order, k);
        if order[k] != recorded[order[k]] {
          notes := MoveMemory(notes, order[k], recorded[order[k]]);
        } else {
          assert MoveMemory(notes, order[k], recorded[order[k]]) == notes;
        }
      }
      assert order[..|order|] == order && (set p | p in order) == recorded.Keys;
      SequentialMovesAreSimultaneous(old(notes), recorded, order);
    }

    /** `UPDATE ... SET project_id = ? WHERE id = ?` for every collected update. */
    method UpdateOwners(ghost owner: Object -> Option<Id>, updates: map<Object, Id>)
      requires forall a :: a in agents ==>
               owner(Agent(a.id)) == if Agent(a.id) in updates then Some(updates[Agent(a.id)]) else a.project
      requires forall c :: c in conversations ==>
               owner(Conversation(c.id)) == if Conversation(c.id) in updates then Some(updates[Conversation(c.id)])
                 else c.project
      requires forall t :: t in tasks ==>
               owner(Task(t.id)) == if Task(t.id) in updates then Some(updates[Task(t.id)]) else t.project
      modifies this`agents, this`conversations, this`tasks
      ensures Snapshot() == WithProjects(old(Snapshot()), owner)
    {
      var agents0, conversations0, tasks0 := agents, conversations, tasks;
      agents := seq(|agents0|, i requires 0 <= i < |agents0| =>
        var o := Agent(agents0[i].id); if o in updates then agents0[i].(project := Some(updates[o])) else agents0[i]);
      conversations := seq(|conversations0|, i requires 0 <= i < |conversations0| =>
        var o := Conversation(conversations0[i].id);
        if o in updates then conversations0[i].(project := Some(updates[o])) else conversations0[i]);
      tasks := seq(|tasks0|, i requires 0 <= i < |tasks0| =>
        var o := Task(tasks0[i].id); if o in updates then tasks0[i].(project := Some(updates[o])) else tasks0[i]);
      assert agents == WithProjects(old(Snapshot()), owner).agents;
      assert conversations == WithProjects(old(Snapshot()), owner).conversations;
      assert tasks == WithProjects(old(Snapshot()), owner).tasks;
    }

    /** The whole migration pass: it never fails and computes `Consolidated`. */
    method Consolidate() returns (result: Result<map<Id, Id>>)
      requires PrimaryKeys(Snapshot()) && NodeCount(Snapshot()) < USIZE_LIMIT
      modifies this
      ensures result.Ok?
      ensures Snapshot() == Consolidated(old(Snapshot()))
    {
      ghost var db := Snapshot();
      var updates;
      result, updates := Plan(Snapshot());
      MovedNotes(db, result.value, updates);
      MoveNotes(result.value);
      OwnersAfterUpdates(db, result.value, updates);
      UpdateOwners(OwnerIn(db), updates);
      assert Snapshot() == WithProjects(db, OwnerIn(db)).(notes := notes);
      ConsolidatedByOwners(db);
      forall p ensures StillHeld(p) <==> Held(Snapshot(), p) { StillHeldIsHeld(p); }
      projects := set p | p in projects && StillHeld(p);
    }
  }
}

/** An Agent's durable repository selection: the stored row, how an inspection of the workspace
    reads it, and the manager operations that rewrite it. */
module RepositorySelection {
  import opened Options

  type Path = string
  type Identity = string
  type SessionId = string

  /** The relative path of the workspace root itself. */
  const ROOT: Path := "."

  datatype Mode = Automatic | Manual | Cleared

  /** A row of `agent_repository_selections`. */
  datatype Stored = Stored(
    path: Option<Path>, identity: Option<Identity>, mode: Mode,
    pendingPath: Option<Path>, pendingMode: Option<Mode>, generation: int)

  datatype Candidate = Candidate(path: Path, identity: Identity)

  /** The file system below the Agent's workspace at one moment: eligible repositories by
      canonical relative path, other spellings that resolve to a canonical path, and what
      automatic discovery reports. */
  datatype Workspace =
    | Unavailable
    | Workspace(repositories: map<Path, Identity>, aliases: map<Path, Path>, discovered: set<Path>, truncated: bool)

  predicate WellFormed(ws: Workspace) {
    ws.Workspace? ==> ws.discovered <= ws.repositories.Keys && ws.repositories.Keys !! ws.aliases.Keys
  }

  /** `authorize_candidate`: resolve a requested path to an eligible repository. */
  function Authorize(ws: Workspace, requested: Path): Option<Candidate>
    requires ws.Workspace?
  {
    var path := if requested in ws.aliases then ws.aliases[requested] else requested;
    if path in ws.repositories then Some(Candidate(path, ws.repositories[path])) else None
  }

  datatype SelectionState = Attached | Pending | NoRepository | Ambiguous | Missing | Emptied

  datatype Desired = Desired(path: Option<Path>, identity: Option<Identity>, mode: Mode)

  datatype Inspection = Inspection(
    active: Option<Candidate>, candidates: map<Path, Identity>, truncated: bool,
    state: SelectionState, stored: Option<Stored>, desired: Desired)

  // ---- Inspection ----

  function Reauthorized(ws: Workspace, candidates: map<Path, Identity>, path: Option<Path>): map<Path, Identity>
    requires ws.Workspace?
  {
    if path.None? || path.value in candidates then candidates
    else match Authorize(ws, path.value)
      case None => candidates
      case Some(c) => candidates[c.path := c.identity]
  }

  /** Discovered repositories plus the re-authorized stored and pending paths. */
  function CandidatesFor(ws: Workspace, stored: Option<Stored>): map<Path, Identity>
    requires ws.Workspace? && WellFormed(ws)
  {
    var found := map p | p in ws.discovered :: ws.repositories[p];
    if stored.None? then found
    else Reauthorized(ws, Reauthorized(ws, found, stored.value.path), stored.value.pendingPath)
  }

  function Lookup(candidates: map<Path, Identity>, path: Option<Path>): Option<Candidate> {
    if path.Some? && path.value in candidates then Some(Candidate(path.value, candidates[path.value])) else None
  }

  lemma OneElement(s: set<Path>)
    requires |s| == 1
    ensures exists p :: s == {p}
  {
    var p :| p in s;
    assert |s - {p}| == 0;
    assert s == {p};
  }

  function Only(s: set<Path>): (p: Path)
    requires |s| == 1
    ensures s == {p}
  {
    OneElement(s);
    var p :| p in s;
    p
  }

  /** The workspace root wins; otherwise a single candidate of a complete discovery. */
  function AutomaticCandidate(candidates: map<Path, Identity>, truncated: bool): Option<Candidate> {
    if ROOT in candidates then Some(Candidate(ROOT, candidates[ROOT]))
    else if !truncated && |candidates.Keys| == 1 then
      var path := Only(candidates.Keys);
      Some(Candidate(path, candidates[path]))
    else None
  }

  function IdentityOf(c: Option<Candidate>): Option<Identity> {
    if c.Some? then Some(c.value.identity) else None
  }

  function BuildInspection(candidates: map<Path, Identity>, truncated: bool, stored: Option<Stored>): Inspection {
    var path := if stored.Some? then stored.value.path else None;
    var mode := if stored.Some? then stored.value.mode else Automatic;
    var pendingPath := if stored.Some? then stored.value.pendingPath else None;
    var pending := Lookup(candidates, pendingPath);
    var selected := Lookup(candidates, path);
    if stored.Some? && stored.value.pendingMode == Some(Cleared) then
      Inspection(selected, candidates, truncated, Pending, stored, Desired(None, None, Cleared))
    else if pending.Some? then
      Inspection(selected, candidates, truncated, Pending, stored,
                 Desired(Some(pending.value.path), Some(pending.value.identity), Manual))
    else if pendingPath.Some? then
      Inspection(selected, candidates, truncated, Missing, stored, Desired(path, IdentityOf(selected), mode))
    else if mode == Cleared then
      Inspection(None, candidates, truncated, Emptied, stored, Desired(None, None, Cleared))
    else if selected.Some? then
      var identityChanged := stored.None? || stored.value.identity != Some(selected.value.identity);
      Inspection(selected, candidates, truncated, if identityChanged then Pending else Attached, stored,
                 Desired(Some(selected.value.path), Some(selected.value.identity), mode))
    else
      var adopted := if mode == Automatic && path.None? then AutomaticCandidate(candidates, truncated) else None;
      if adopted.Some? then
        Inspection(None, candidates, truncated, Pending, stored,
                   Desired(Some(adopted.value.path), Some(adopted.value.identity), Automatic))
      else
        var state := if path.Some? then Missing else if |candidates.Keys| == 0 && !truncated then NoRepository
          else Ambiguous;
        Inspection(None, candidates, truncated, state, stored, Desired(path, None, mode))
  }

  function Inspect(ws: Workspace, stored: Option<Stored>): Inspection
    requires ws.Workspace? && WellFormed(ws)
  {
    BuildInspection(CandidatesFor(ws, stored), ws.truncated, stored)
  }

  function Key(stored: Option<Stored>): Desired {
    if stored.Some? then Desired(stored.value.path, stored.value.identity, stored.value.mode)
    else Desired(None, None, Automatic)
  }

  predicate HasPending(stored: Option<Stored>) {
    stored.Some? && stored.value.pendingMode.Some?
  }

  predicate RequiresBoundaryChange(i: Inspection) {
    Key(i.stored) != i.desired || HasPending(i.stored)
  }

  predicate RequiresRuntimeRestart(i: Inspection) {
    Key(i.stored) != i.desired || (HasPending(i.stored) && i.state == Pending)
  }

  // ---- The operations as transitions of one Agent's state ----

  /** The row and the native session ids of the Agent's attempts and Conversations. */
  datatype AgentState = AgentState(
    row: Option<Stored>, attempts: map<string, Option<SessionId>>, conversations: map<string, Option<SessionId>>)

  datatype Outcome =
    | Refused
    | StaleGeneration
    | Inspected(inspection: Inspection)
    | Applied(inspection: Inspection, changed: bool)

  function Retired(sessions: map<string, Option<SessionId>>): map<string, Option<SessionId>> {
    map id | id in sessions :: None
  }

  function NextGeneration(row: Option<Stored>): int {
    if row.Some? then row.value.generation + 1 else 1
  }

  function Persisted(s: AgentState, desired: Desired, pendingPath: Option<Path>, pendingMode: Option<Mode>,
                     invalidate: bool): AgentState {
    AgentState(
      Some(Stored(desired.path, desired.identity, desired.mode, pendingPath, pendingMode, NextGeneration(s.row))),
      if invalidate then Retired(s.attempts) else s.attempts,
      if invalidate then Retired(s.conversations) else s.conversations)
  }

  datatype Step = Step(state: AgentState, outcome: Outcome)

  function ApplyBoundary(s: AgentState, ws: Workspace): Step
    requires WellFormed(ws)
  {
    if ws.Unavailable? then Step(s, Refused)
    else
      var inspection := Inspect(ws, s.row);
      var restart := RequiresRuntimeRestart(inspection);
      var s' := if RequiresBoundaryChange(inspection) then Persisted(s, inspection.desired, None, None, restart) else s;
      Step(s', Applied(Inspect(ws, s'.row), restart))
  }

  function Select(s: AgentState, ws: Workspace, path: Path): Step
    requires WellFormed(ws)
  {
    if ws.Unavailable? || Authorize(ws, path).None? then Step(s, Refused)
    else
      var c := Authorize(ws, path).value;
      var desired := Desired(Some(c.path), Some(c.identity), Manual);
      var changed := s.row.None? || Key(s.row) != desired;
      var s' := Persisted(s, desired, None, None, changed);
      Step(s', Applied(Inspect(ws, s'.row), changed))
  }

  function Generation(row: Option<Stored>): Option<int> {
    if row.Some? then Some(row.value.generation) else None
  }

  function SelectLive(s: AgentState, ws: Workspace, path: Path, expected: Option<int>): Step
    requires WellFormed(ws)
  {
    if ws.Unavailable? || Authorize(ws, path).None? then Step(s, Refused)
    else if Generation(s.row) != expected then Step(s, StaleGeneration)
    else
      var c := Authorize(ws, path).value;
      var s' := Persisted(s, Desired(Some(c.path), Some(c.identity), Manual), Some(c.path), Some(Manual), true);
      Step(s', Applied(Inspect(ws, s'.row), true))
  }

  /** `clear` and `propose_clear` write the row before they look at the workspace. */
  function Clear(s: AgentState, ws: Workspace): Step
    requires WellFormed(ws)
  {
    var desired := Desired(None, None, Cleared);
    var changed := s.row.None? || Key(s.row) != desired;
    var s' := Persisted(s, desired, None, None, changed);
    Step(s', if ws.Unavailable? then Refused else Applied(Inspect(ws, s'.row), changed))
  }

  function Propose(s: AgentState, ws: Workspace, path: Path): Step
    requires WellFormed(ws)
  {
    if ws.Unavailable? || Authorize(ws, path).None? then Step(s, Refused)
    else
      var s' := Persisted(s, Key(s.row), Some(Authorize(ws, path).value.path), Some(Manual), false);
      Step(s', Inspected(Inspect(ws, s'.row)))
  }

  function ProposeClear(s: AgentState, ws: Workspace): Step
    requires WellFormed(ws)
  {
    var s' := Persisted(s, Key(s.row), None, Some(Cleared), false);
    Step(s', if ws.Unavailable? then Refused else Inspected(Inspect(ws, s'.row)))
  }

  // ---- The manager object ----

  class AgentRepositoryManager {
    var row: Option<Stored>
    var attempts: map<string, Option<SessionId>>
    var conversations: map<string, Option<SessionId>>

    function State(): AgentState
      reads this
    {
      AgentState(row, attempts, conversations)
    }

    /** `persist_selection`: an upsert guarded by an optional generation expectation. */
    method PersistSelection(desired: Desired, pendingPath: Option<Path>, pendingMode: Option<Mode>, invalidate: bool,
                            expectation: Option<Option<int>>)
      returns (written: bool)
      modifies this
      ensures written <==> expectation.None? || Generation(old(row)) == expectation.value
      ensures State() == if written then Persisted(old(State()), desired, pendingPath, pendingMode, invalidate)
              else old(State())
    {
      if expectation.Some? {
        var current := if row.Some? then Some(row.value.generation) else None;
        if current != expectation.value {
          return false;
        }
      }
      var generation := if row.Some? then row.value.generation + 1 else 1;
      row := Some(Stored(desired.path, desired.identity, desired.mode, pendingPath, pendingMode, generation));
      if invalidate {
        attempts := Retired(attempts);
        conversations := Retired(conversations);
      }
      return true;
    }

    method ApplyAtBoundary(ws: Workspace) returns (outcome: Outcome)
      requires WellFormed(ws)
      modifies this
      ensures Step(State(), outcome) == ApplyBoundary(old(State()), ws)
    {
      if ws.Unavailable? {
        return Refused;
      }
      var inspection := Inspect(ws, row);
      var boundaryChanged := Key(inspection.stored) != inspection.desired;
      var hasPending := HasPending(inspection.stored);
      var runtimeChanged := RequiresRuntimeRestart(inspection);
      if boundaryChanged || hasPending {
        var _ := PersistSelection(inspection.desired, None, None, runtimeChanged, None);
      }
      outcome := Applied(Inspect(ws, row), runtimeChanged);
    }

    method SelectPath(ws: Workspace, path: Path) returns (outcome: Outcome)
      requires WellFormed(ws)
      modifies this
      ensures Step(State(), outcome) == Select(old(State()), ws, path)
    {
      if ws.Unavailable? || Authorize(ws, path).None? {
        return Refused;
      }
      var candidate := Authorize(ws, path).value;
      var desired := Desired(Some(candidate.path), Some(candidate.identity), Manual);
      var changed := row.None? || Key(row) != desired;
      var _ := PersistSelection(desired, None, None, changed, None);
      outcome := Applied(Inspect(ws, row), changed);
    }

    method SelectPathLive(ws: Workspace, path: Path, expected: Option<int>) returns (outcome: Outcome)
      requires WellFormed(ws)
      modifies this
      ensures Step(State(), outcome) == SelectLive(old(State()), ws, path, expected)
    {
      if ws.Unavailable? || Authorize(ws, path).None? {
        return Refused;
      }
      var candidate := Authorize(ws, path).value;
      var desired := Desired(Some(candidate.path), Some(candidate.identity), Manual);
      var written := PersistSelection(desired, Some(candidate.path), Some(Manual), true, Some(expected));
      if !written {
        return StaleGeneration;
      }
      outcome := Applied(Inspect(ws, row), true);
    }

    method ClearSelection(ws: Workspace) returns (outcome: Outcome)
      requires WellFormed(ws)
      modifies this
      ensures Step(State(), outcome) == Clear(old(State()), ws)
    {
      var desired := Desired(None, None, Cleared);
      var changed := row.None? || Key(row) != desired;
      var _ := PersistSelection(desired, None, None, changed, None);
      outcome := if ws.Unavailable? then Refused else Applied(Inspect(ws, row), changed);
    }

    method ProposePath(ws: Workspace, path: Path) returns (outcome: Outcome)
      requires WellFormed(ws)
      modifies this
      ensures Step(State(), outcome) == Propose(old(State()), ws, path)
    {
      if ws.Unavailable? || Authorize(ws, path).None? {
        return Refused;
      }
      var candidate := Authorize(ws, path).value;
      var _ := PersistSelection(Key(row), Some(candidate.path), Some(Manual), false, None);
      outcome := Inspected(Inspect(ws, row));
    }

    method ProposeClearing(ws: Workspace) returns (outcome: Outcome)
      requires WellFormed(ws)
      modifies this
      ensures Step(State(), outcome) == ProposeClear(old(State()), ws)
    {
      var _ := PersistSelection(Key(row), None, Some(Cleared), false, None);
      outcome := if ws.Unavailable? then Refused else Inspected(Inspect(ws, row));
    }
  }
}

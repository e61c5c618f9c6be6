/** What every run of manager operations keeps, however the workspace changes in between. */
module RepositorySelectionRuns {
  import opened Options
  import opened RepositorySelection

  /** One atomic step: a manager operation against the workspace as it is then, or the running
      turn storing a native session id. */
  datatype Event =
    | Boundary(ws: Workspace)
    | Selecting(ws: Workspace, path: Path)
    | SelectingLive(ws: Workspace, path: Path, expected: Option<int>)
    | Clearing(ws: Workspace)
    | Proposing(ws: Workspace, path: Path)
    | ProposingClear(ws: Workspace)
    | WritingAttempt(id: string, session: Option<SessionId>)
    | WritingConversation(id: string, session: Option<SessionId>)

  type Run = seq<Event>

  ghost predicate Possible(e: Event) {
    match e
    case WritingAttempt(_, _) => true
    case WritingConversation(_, _) => true
    case _ => WellFormed(e.ws)
  }

  ghost predicate PossibleRun(run: Run) {
    forall i :: 0 <= i < |run| ==> Possible(run[i])
  }

  function After(s: AgentState, e: Event): AgentState
    requires Possible(e)
  {
    match e
    case Boundary(ws) => ApplyBoundary(s, ws).state
    case Selecting(ws, path) => Select(s, ws, path).state
    case SelectingLive(ws, path, expected) => SelectLive(s, ws, path, expected).state
    case Clearing(ws) => Clear(s, ws).state
    case Proposing(ws, path) => Propose(s, ws, path).state
    case ProposingClear(ws) => ProposeClear(s, ws).state
    case WritingAttempt(id, session) => s.(attempts := s.attempts[id := session])
    case WritingConversation(id, session) => s.(conversations := s.conversations[id := session])
  }

  function AfterRun(s: AgentState, run: Run): AgentState
    requires PossibleRun(run)
    decreases |run|
  {
    if run == [] then s else After(AfterRun(s, run[..|run| - 1]), run[|run| - 1])
  }

  // ---- Table constraints ----

  /** The CHECK constraints of `agent_repository_selections`. */
  ghost predicate TableChecks(r: Stored) {
    && r.pendingMode in {None, Some(Manual), Some(Cleared)}
    && (r.path.Some? || r.identity.None?)
    && (r.mode != Cleared || r.path.None?)
    && (|| (r.pendingMode == None && r.pendingPath.None?)
        || (r.pendingMode == Some(Manual) && r.pendingPath.Some?)
        || (r.pendingMode == Some(Cleared) && r.pendingPath.None?))
  }

  ghost predicate RowInvariant(row: Option<Stored>) {
    row.Some? ==>
      && TableChecks(row.value)
      && (row.value.mode == Manual ==> row.value.path.Some?)
      && row.value.generation >= 1
  }

  lemma StepKeepsRowInvariant(s: AgentState, e: Event)
    requires Possible(e) && RowInvariant(s.row)
    ensures RowInvariant(After(s, e).row)
  {
  }

  /** Every reachable row satisfies the table's constraints, and manual mode carries a path. */
  lemma {:induction false} RunKeepsRowInvariant(s: AgentState, run: Run)
    requires PossibleRun(run) && RowInvariant(s.row)
    ensures RowInvariant(AfterRun(s, run).row)
    decreases |run|
  {
    if run != [] {
      RunKeepsRowInvariant(s, run[..|run| - 1]);
      StepKeepsRowInvariant(AfterRun(s, run[..|run| - 1]), run[|run| - 1]);
    }
  }

  // ---- The active repository ----

  ghost function RepositoryAt(ws: Workspace, path: Option<Path>): Option<Candidate>
    requires ws.Workspace?
  {
    if path.Some? && path.value in ws.repositories then Some(Candidate(path.value, ws.repositories[path.value]))
    else None
  }

  lemma CandidatesAreRepositories(ws: Workspace, stored: Option<Stored>)
    requires ws.Workspace? && WellFormed(ws)
    ensures forall p :: p in CandidatesFor(ws, stored) ==>
            p in ws.repositories && CandidatesFor(ws, stored)[p] == ws.repositories[p]
    ensures stored.Some? ==> Lookup(CandidatesFor(ws, stored), stored.value.path) == RepositoryAt(ws, stored.value.path)
    ensures stored.Some? ==>
            Lookup(CandidatesFor(ws, stored), stored.value.pendingPath) == RepositoryAt(ws, stored.value.pendingPath)
  {
  }

  /** The reported active repository is the eligible repository at the stored path, whatever is pending. */
  lemma ActiveIsStoredRepository(ws: Workspace, row: Option<Stored>)
    requires ws.Workspace? && WellFormed(ws) && RowInvariant(row)
    ensures Inspect(ws, row).active == RepositoryAt(ws, if row.Some? then row.value.path else None)
  {
  }

  /** Proposals never change the active repository, seen from any later workspace. */
  lemma ProposalsKeepActive(s: AgentState, ws: Workspace, path: Path, later: Workspace)
    requires WellFormed(ws) && later.Workspace? && WellFormed(later) && RowInvariant(s.row)
    ensures Inspect(later, Propose(s, ws, path).state.row).active == Inspect(later, s.row).active
    ensures Inspect(later, ProposeClear(s, ws).state.row).active == Inspect(later, s.row).active
  {
    StepKeepsRowInvariant(s, Proposing(ws, path));
    StepKeepsRowInvariant(s, ProposingClear(ws));
    ActiveIsStoredRepository(later, s.row);
    ActiveIsStoredRepository(later, Propose(s, ws, path).state.row);
    ActiveIsStoredRepository(later, ProposeClear(s, ws).state.row);
  }

  // ---- Boundaries on an unchanged workspace ----

  ghost predicate Settled(s: AgentState, ws: Workspace)
    requires ws.Workspace? && WellFormed(ws)
  {
    ApplyBoundary(s, ws).state == s && !RequiresBoundaryChange(Inspect(ws, s.row))
  }

  /** A proposal whose repository vanished, on an automatic row without a path, in a workspace
      with something to adopt. */
  ghost predicate VanishedProposalHidesAdoption(s: AgentState, ws: Workspace)
    requires ws.Workspace? && WellFormed(ws)
  {
    && s.row.Some? && s.row.value.mode == Automatic && s.row.value.path.None?
    && s.row.value.pendingPath.Some? && RepositoryAt(ws, s.row.value.pendingPath).None?
    && Adoptable(ws).Some?
  }

  /** The repository at the root if discovery reports it, else the only one a complete discovery reports. */
  ghost function Adoptable(ws: Workspace): Option<Candidate>
    requires ws.Workspace? && WellFormed(ws)
  {
    if "." in ws.discovered then Some(Candidate(".", ws.repositories["."]))
    else if !ws.truncated && exists p :: ws.discovered == {p} then
      var p :| ws.discovered == {p};
      Some(Candidate(p, ws.repositories[p]))
    else None
  }

  lemma AutomaticIsAdoptable(ws: Workspace)
    requires ws.Workspace? && WellFormed(ws)
    ensures AutomaticCandidate(CandidatesFor(ws, None), ws.truncated) == Adoptable(ws)
  {
    var found := CandidatesFor(ws, None);
    assert found.Keys == ws.discovered;
    if p :| ws.discovered == {p} {
      assert |found.Keys| == 1 && found.Keys == {p};
    }
  }

  /** The desired selection read off the repositories themselves rather than the candidates. */
  ghost function Wanted(ws: Workspace, row: Option<Stored>): Desired
    requires ws.Workspace? && WellFormed(ws)
  {
    var key := Key(row);
    var selected := RepositoryAt(ws, key.path);
    var pendingPath := if row.Some? then row.value.pendingPath else None;
    var adopted := Adoptable(ws);
    if row.Some? && row.value.pendingMode == Some(Cleared) then Desired(None, None, Cleared)
    else if RepositoryAt(ws, pendingPath).Some?
      then Desired(pendingPath, IdentityOf(RepositoryAt(ws, pendingPath)), Manual)
    else if pendingPath.Some? then Desired(key.path, IdentityOf(selected), key.mode)
    else if key.mode == Cleared then Desired(None, None, Cleared)
    else if key.mode == Automatic && key.path.None? && adopted.Some?
      then Desired(Some(adopted.value.path), Some(adopted.value.identity), Automatic)
    else Desired(key.path, IdentityOf(selected), key.mode)
  }

  lemma InspectionWants(ws: Workspace, row: Option<Stored>)
    requires ws.Workspace? && WellFormed(ws) && RowInvariant(row)
    ensures Inspect(ws, row).desired == Wanted(ws, row)
  {
    CandidatesAreRepositories(ws, row);
    AutomaticIsAdoptable(ws);
  }

  ghost function RowFor(d: Desired, generation: int): Option<Stored> {
    Some(Stored(d.path, d.identity, d.mode, None, None, generation))
  }

  /** A row that holds what was wanted wants itself, unless a hidden adoption surfaces. */
  lemma WantedIsStable(ws: Workspace, s: AgentState, generation: int)
    requires ws.Workspace? && WellFormed(ws) && RowInvariant(s.row)
    ensures Wanted(ws, RowFor(Wanted(ws, s.row), generation)) == Wanted(ws, s.row) <==>
            !VanishedProposalHidesAdoption(s, ws)
  {
  }

  lemma BoundaryStoresWanted(s: AgentState, ws: Workspace)
    requires ws.Workspace? && WellFormed(ws) && RowInvariant(s.row)
    ensures ApplyBoundary(s, ws).state.row ==
            if Wanted(ws, s.row) != Key(s.row) || HasPending(s.row)
              then RowFor(Wanted(ws, s.row), NextGeneration(s.row)) else s.row
  {
    InspectionWants(ws, s.row);
  }

  lemma SettledIffWanted(s: AgentState, ws: Workspace)
    requires ws.Workspace? && WellFormed(ws) && RowInvariant(s.row)
    ensures Settled(s, ws) <==> Wanted(ws, s.row) == Key(s.row) && !HasPending(s.row)
  {
    InspectionWants(ws, s.row);
  }

  /** One boundary settles an unchanged workspace, except exactly when it consumed a vanished
      proposal that had hidden an adoption. */
  lemma OneBoundarySettles(s: AgentState, ws: Workspace)
    requires ws.Workspace? && WellFormed(ws) && RowInvariant(s.row)
    ensures Settled(ApplyBoundary(s, ws).state, ws) <==> !VanishedProposalHidesAdoption(s, ws)
  {
    StepKeepsRowInvariant(s, Boundary(ws));
    BoundaryStoresWanted(s, ws);
    SettledIffWanted(ApplyBoundary(s, ws).state, ws);
    WantedIsStable(ws, s, NextGeneration(s.row));
  }

  lemma TwoBoundariesSettle(s: AgentState, ws: Workspace)
    requires ws.Workspace? && WellFormed(ws) && RowInvariant(s.row)
    ensures Settled(ApplyBoundary(ApplyBoundary(s, ws).state, ws).state, ws)
  {
    StepKeepsRowInvariant(s, Boundary(ws));
    OneBoundarySettles(ApplyBoundary(s, ws).state, ws);
  }

  /** At a fixed point a boundary writes nothing, retires nothing and reports no change. */
  lemma SettledIsQuiet(s: AgentState, ws: Workspace)
    requires ws.Workspace? && WellFormed(ws) && RowInvariant(s.row) && Settled(s, ws)
    ensures var step := ApplyBoundary(s, ws);
            step.state == s && !step.outcome.changed && step.outcome.inspection.state != Pending
  {
  }

  // ---- The live marker ----

  /** The row a live selection of `path` leaves behind. */
  ghost predicate Marked(row: Option<Stored>) {
    && row.Some? && row.value.path.Some? && row.value.identity.Some? && row.value.mode == Manual
    && row.value.pendingPath == row.value.path && row.value.pendingMode == Some(Manual)
  }

  ghost predicate NoNativeSession(s: AgentState) {
    && (forall id :: id in s.attempts ==> s.attempts[id].None?)
    && (forall id :: id in s.conversations ==> s.conversations[id].None?)
  }

  ghost predicate SessionWrite(e: Event) {
    e.WritingAttempt? || e.WritingConversation?
  }

  /** Steps that leave a live marker pending: session writes and every step that writes no row. */
  lemma {:induction false} MarkerSurvives(s: AgentState, run: Run)
    requires PossibleRun(run)
    requires Generation(AfterRun(s, run).row) == Generation(s.row)
    ensures AfterRun(s, run).row == s.row
    decreases |run|
  {
    GenerationCountsWrites(s, run);
    NoWritesSameRow(s, run);
  }

  /** After a live selection, whatever sessions the turn stores and however the workspace
      changes, the next boundary reports a change and retires every native session. */
  lemma MarkerForcesRestart(s: AgentState, ws: Workspace, path: Path, expected: Option<int>, run: Run, later: Workspace)
    requires WellFormed(ws) && later.Workspace? && WellFormed(later) && PossibleRun(run)
    requires SelectLive(s, ws, path, expected).outcome.Applied?
    requires var live := SelectLive(s, ws, path, expected).state;
             Generation(AfterRun(live, run).row) == Generation(live.row)
    ensures var step := ApplyBoundary(AfterRun(SelectLive(s, ws, path, expected).state, run), later);
            step.outcome.changed && NoNativeSession(step.state) && !HasPending(step.state.row)
  {
    var live := SelectLive(s, ws, path, expected).state;
    MarkerSurvives(live, run);
    MarkedRowRestarts(AfterRun(live, run), later);
  }

  lemma MarkedRowRestarts(s: AgentState, ws: Workspace)
    requires ws.Workspace? && WellFormed(ws) && Marked(s.row)
    ensures var step := ApplyBoundary(s, ws);
            step.outcome.changed && NoNativeSession(step.state) && !HasPending(step.state.row)
  {
  }

  // ---- Runs of boundaries only ----

  ghost predicate BoundariesOnly(run: Run) {
    forall i :: 0 <= i < |run| ==> run[i].Boundary? || SessionWrite(run[i])
  }

  ghost predicate KeepsSelection(before: Option<Stored>, after: Option<Stored>) {
    && !HasPending(after)
    && (before.Some? && before.value.path.Some? ==>
          after.Some? && after.value.path == before.value.path && after.value.mode == before.value.mode)
    && (before.Some? && before.value.mode == Cleared ==>
        after.Some? && after.value.mode == Cleared && after.value.path.None?)
  }

  lemma BoundaryKeepsSelection(s: AgentState, ws: Workspace)
    requires WellFormed(ws) && RowInvariant(s.row) && !HasPending(s.row)
    ensures KeepsSelection(s.row, ApplyBoundary(s, ws).state.row)
  {
  }

  /** Without an explicit operation a stored path is never replaced and a cleared selection is
      never re-adopted. */
  lemma {:induction false} BoundariesKeepSelection(s: AgentState, run: Run)
    requires PossibleRun(run) && BoundariesOnly(run) && RowInvariant(s.row) && !HasPending(s.row)
    ensures KeepsSelection(s.row, AfterRun(s, run).row)
    decreases |run|
  {
    if run != [] {
      var init, e := run[..|run| - 1], run[|run| - 1];
      BoundariesKeepSelection(s, init);
      RunKeepsRowInvariant(s, init);
      if e.Boundary? {
        BoundaryKeepsSelection(AfterRun(s, init), e.ws);
      }
    }
  }

  /** A boundary that gives a row its first path started from an automatic row, or none, without
      one, and took the root or the only repository discovered. Nothing was pending. */
  lemma AdoptionStartsFromNothing(s: AgentState, ws: Workspace)
    requires WellFormed(ws) && RowInvariant(s.row) && !HasPending(s.row)
    requires Key(ApplyBoundary(s, ws).state.row).path != Key(s.row).path
    ensures ws.Workspace? && Key(s.row).mode == Automatic && Key(s.row).path.None?
    ensures var key := Key(ApplyBoundary(s, ws).state.row);
            && key.path.Some? && key.path.value in ws.discovered && key.mode == Automatic
            && key.identity == Some(ws.repositories[key.path.value])
            && (key.path == Some(".") || ("." !in ws.discovered && !ws.truncated && ws.discovered == {key.path.value}))
  {
    AutomaticIsAdoptable(ws);
  }

  // ---- Generations ----

  ghost predicate Writes(s: AgentState, e: Event)
    requires Possible(e)
  {
    match e
    case Boundary(ws) => ws.Workspace? && RequiresBoundaryChange(Inspect(ws, s.row))
    case Selecting(ws, path) => ws.Workspace? && Authorize(ws, path).Some?
    case SelectingLive(ws, path, expected) => ws.Workspace? && Authorize(ws, path).Some?
      && Generation(s.row) == expected
    case Clearing(_) => true
    case Proposing(ws, path) => ws.Workspace? && Authorize(ws, path).Some?
    case ProposingClear(_) => true
    case WritingAttempt(_, _) => false
    case WritingConversation(_, _) => false
  }

  ghost function WriteCount(s: AgentState, run: Run): nat
    requires PossibleRun(run)
    decreases |run|
  {
    if run == [] then 0
    else
      var init := run[..|run| - 1];
      WriteCount(s, init) + (if Writes(AfterRun(s, init), run[|run| - 1]) then 1 else 0)
  }

  ghost function Count(row: Option<Stored>): int {
    if row.Some? then row.value.generation else 0
  }

  lemma StepCountsWrite(s: AgentState, e: Event)
    requires Possible(e)
    ensures Count(After(s, e).row) == Count(s.row) + (if Writes(s, e) then 1 else 0)
    ensures !Writes(s, e) ==> After(s, e).row == s.row
    ensures s.row.Some? || Writes(s, e) ==> After(s, e).row.Some?
  {
  }

  /** Each persisted write raises the generation by exactly one. */
  lemma {:induction false} GenerationCountsWrites(s: AgentState, run: Run)
    requires PossibleRun(run)
    ensures Count(AfterRun(s, run).row) == Count(s.row) + WriteCount(s, run)
    ensures s.row.Some? || WriteCount(s, run) > 0 ==> AfterRun(s, run).row.Some?
    decreases |run|
  {
    if run != [] {
      GenerationCountsWrites(s, run[..|run| - 1]);
      StepCountsWrite(AfterRun(s, run[..|run| - 1]), run[|run| - 1]);
    }
  }

  lemma {:induction false} NoWritesSameRow(s: AgentState, run: Run)
    requires PossibleRun(run) && WriteCount(s, run) == 0
    ensures AfterRun(s, run).row == s.row
    decreases |run|
  {
    if run != [] {
      NoWritesSameRow(s, run[..|run| - 1]);
      StepCountsWrite(AfterRun(s, run[..|run| - 1]), run[|run| - 1]);
    }
  }

  /** A live selection of an eligible path with an observed generation succeeds iff nothing was
      written since the observation; otherwise it changes nothing. */
  lemma LiveSelectionIsOptimistic(observed: AgentState, run: Run, ws: Workspace, path: Path)
    requires PossibleRun(run) && ws.Workspace? && WellFormed(ws) && Authorize(ws, path).Some?
    requires RowInvariant(observed.row)
    ensures var now := AfterRun(observed, run);
            var step := SelectLive(now, ws, path, Generation(observed.row));
            && (step.outcome.Applied? <==> WriteCount(observed, run) == 0)
            && (WriteCount(observed, run) != 0 ==> step == Step(now, StaleGeneration))
  {
    GenerationCountsWrites(observed, run);
    if WriteCount(observed, run) == 0 {
      NoWritesSameRow(observed, run);
    }
  }

  // ---- Explicit operations take effect ----

  ghost predicate Selected(s: AgentState, ws: Workspace, path: Path)
    requires ws.Workspace? && WellFormed(ws)
  {
    && s.row.Some? && s.row.value.mode == Manual && s.row.value.path == Some(path) && !HasPending(s.row)
    && Inspect(ws, s.row).active == RepositoryAt(ws, Some(path)) && Settled(s, ws)
  }

  lemma ManualRowIsSelected(s: AgentState, ws: Workspace, path: Path, generation: int)
    requires ws.Workspace? && WellFormed(ws) && path in ws.repositories && generation >= 1
    requires s.row == RowFor(Desired(Some(path), Some(ws.repositories[path]), Manual), generation)
    ensures Selected(s, ws, path)
  {
  }

  /** A selection attaches the requested repository at once; native sessions are retired exactly
      when it changed anything. */
  lemma SelectTakesEffect(s: AgentState, ws: Workspace, path: Path)
    requires ws.Workspace? && WellFormed(ws) && RowInvariant(s.row) && Authorize(ws, path).Some?
    ensures var step := Select(s, ws, path); var c := Authorize(ws, path).value;
            && Selected(step.state, ws, c.path)
            && (step.outcome.changed <==> s.row.None? || Key(s.row) != Desired(Some(c.path), Some(c.identity), Manual))
            && (if step.outcome.changed then NoNativeSession(step.state)
                else step.state.attempts == s.attempts && step.state.conversations == s.conversations)
  {
  }

  /** A proposal is not applied when it is made; the next boundary that still finds the repository
      selects it and retires the sessions of the old one. */
  lemma ProposalAppliesAtBoundary(s: AgentState, ws: Workspace, path: Path, later: Workspace)
    requires ws.Workspace? && WellFormed(ws) && RowInvariant(s.row) && Authorize(ws, path).Some?
    requires later.Workspace? && WellFormed(later) && Authorize(ws, path).value.path in later.repositories
    ensures var proposed := Propose(s, ws, path).state; var step := ApplyBoundary(proposed, later);
            && Key(proposed.row) == Key(s.row) && proposed.attempts == s.attempts
               && proposed.conversations == s.conversations
            && step.outcome.changed && NoNativeSession(step.state)
               && Selected(step.state, later, Authorize(ws, path).value.path)
  {
    var proposed := Propose(s, ws, path).state;
    StepKeepsRowInvariant(s, Proposing(ws, path));
    CandidatesAreRepositories(later, proposed.row);
    ManualRowIsSelected(ApplyBoundary(proposed, later).state, later, Authorize(ws, path).value.path,
                        NextGeneration(proposed.row));
  }

  /** A proposal whose repository is gone at the boundary is dropped; the stored path and mode stay. */
  lemma VanishedProposalIsDropped(s: AgentState, ws: Workspace, path: Path, later: Workspace)
    requires ws.Workspace? && WellFormed(ws) && RowInvariant(s.row) && Authorize(ws, path).Some?
    requires later.Workspace? && WellFormed(later) && Authorize(ws, path).value.path !in later.repositories
    ensures var step := ApplyBoundary(Propose(s, ws, path).state, later);
            && !HasPending(step.state.row) && Key(step.state.row).path == Key(s.row).path
               && Key(step.state.row).mode == Key(s.row).mode
            && (step.outcome.changed <==> Key(s.row).identity != IdentityOf(RepositoryAt(later, Key(s.row).path)))
  {
    var proposed := Propose(s, ws, path).state;
    StepKeepsRowInvariant(s, Proposing(ws, path));
    CandidatesAreRepositories(later, proposed.row);
  }

  /** Clearing, directly or by a proposal at its boundary, disables adoption for every later run
      of boundaries, whatever repositories appear. */
  lemma ClearDisablesAdoption(s: AgentState, ws: Workspace, boundary: Workspace, run: Run, later: Workspace)
    requires WellFormed(ws) && RowInvariant(s.row) && later.Workspace? && WellFormed(later)
    requires boundary.Workspace? && WellFormed(boundary)
    requires PossibleRun(run) && BoundariesOnly(run)
    ensures Inspect(later, AfterRun(Clear(s, ws).state, run).row).active == None
    ensures Inspect(later, AfterRun(ApplyBoundary(ProposeClear(s, ws).state, boundary).state, run).row).active == None
  {
    ClearedStaysEmpty(Clear(s, ws).state, run, later);
    StepKeepsRowInvariant(s, ProposingClear(ws));
    ClearedStaysEmpty(ApplyBoundary(ProposeClear(s, ws).state, boundary).state, run, later);
  }

  lemma ClearedStaysEmpty(cleared: AgentState, run: Run, later: Workspace)
    requires later.Workspace? && WellFormed(later) && PossibleRun(run) && BoundariesOnly(run)
    requires RowInvariant(cleared.row) && cleared.row.Some? && cleared.row.value.mode == Cleared
             && !HasPending(cleared.row)
    ensures Inspect(later, AfterRun(cleared, run).row).active == None
  {
    BoundariesKeepSelection(cleared, run);
    RunKeepsRowInvariant(cleared, run);
    ActiveIsStoredRepository(later, AfterRun(cleared, run).row);
  }
}

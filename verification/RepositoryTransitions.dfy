/** Every manager operation, said in terms of the stored row, the native sessions and the repositories
    of the workspace. */
module RepositoryTransitions {
  import opened Options
  import opened RepositorySelection
  import opened RepositorySelectionRuns

  /** Neither row nor sessions change, and no change is reported. */
  ghost predicate Unchanged(s: AgentState, step: Step) {
    step.state == s && step.outcome.Applied? && !step.outcome.changed
  }

  /** The row is rewritten with the next generation and nothing pending. */
  ghost predicate Wrote(s: AgentState, step: Step, path: Option<Path>, identity: Option<Identity>, mode: Mode) {
    step.state.row ==
    Some(Stored(path, identity, mode, None, None, if s.row.Some? then s.row.value.generation + 1 else 1))
  }

  /** A reported change comes with every native session id forgotten, and only then. */
  ghost predicate Restarted(s: AgentState, step: Step, changed: bool) {
    && step.outcome.Applied? && step.outcome.changed == changed
    && step.state.attempts.Keys == s.attempts.Keys && step.state.conversations.Keys == s.conversations.Keys
    && (changed ==>
          && (forall id :: id in s.attempts ==> step.state.attempts[id] == None)
          && (forall id :: id in s.conversations ==> step.state.conversations[id] == None))
    && (!changed ==> step.state.attempts == s.attempts && step.state.conversations == s.conversations)
  }

  // ---- Boundaries ----

  /** Nothing stored, or automatic without a path: the root if it is a repository, else the only
      discovered repository of a complete discovery, else nothing. */
  lemma BoundaryAdopts(s: AgentState, ws: Workspace)
    requires ws.Workspace? && WellFormed(ws) && RowInvariant(s.row)
    requires s.row.Some? ==>
               s.row.value.mode == Automatic && s.row.value.path.None? && s.row.value.pendingMode.None?
    ensures var step := ApplyBoundary(s, ws);
            if "." in ws.discovered then
              Wrote(s, step, Some("."), Some(ws.repositories["."]), Automatic) && Restarted(s, step, true)
            else if !ws.truncated && |ws.discovered| == 1 then
              exists p ::
                && ws.discovered == {p}
                && Wrote(s, step, Some(p), Some(ws.repositories[p]), Automatic) && Restarted(s, step, true)
            else Unchanged(s, step)
  {
    var found := CandidatesFor(ws, None);
    assert found.Keys == ws.discovered && CandidatesFor(ws, s.row) == found;
    if "." !in ws.discovered && !ws.truncated && |ws.discovered| == 1 {
      var p := Only(found.Keys);
      assert ws.discovered == {p};
      assert Wrote(s, ApplyBoundary(s, ws), Some(p), Some(ws.repositories[p]), Automatic);
    }
  }

  /** A stored path with nothing pending is kept; its identity follows the repository found there. */
  lemma BoundaryFollowsPath(s: AgentState, ws: Workspace, p: Path)
    requires ws.Workspace? && WellFormed(ws) && RowInvariant(s.row)
    requires s.row.Some? && s.row.value.path == Some(p) && s.row.value.pendingMode.None?
    ensures var step := ApplyBoundary(s, ws);
            var identity := if p in ws.repositories then Some(ws.repositories[p]) else None;
            if s.row.value.identity == identity then Unchanged(s, step)
            else Wrote(s, step, Some(p), identity, s.row.value.mode) && Restarted(s, step, true)
  {
    InspectionWants(ws, s.row);
  }

  /** A cleared row with nothing pending stays. */
  lemma BoundaryKeepsCleared(s: AgentState, ws: Workspace)
    requires ws.Workspace? && WellFormed(ws) && RowInvariant(s.row)
    requires s.row.Some? && s.row.value.mode == Cleared && s.row.value.pendingMode.None?
    ensures Unchanged(s, ApplyBoundary(s, ws))
  {
  }

  /** A pending clear is carried out. */
  lemma BoundaryClears(s: AgentState, ws: Workspace)
    requires ws.Workspace? && WellFormed(ws) && s.row.Some? && s.row.value.pendingMode == Some(Cleared)
    ensures var step := ApplyBoundary(s, ws);
            Wrote(s, step, None, None, Cleared) && Restarted(s, step, true)
  {
  }

  /** A pending path is selected if a repository is there. If not, the proposal is dropped and the
      stored path keeps its mode, with the identity found there now. */
  lemma BoundaryTakesProposal(s: AgentState, ws: Workspace, p: Path)
    requires ws.Workspace? && WellFormed(ws) && RowInvariant(s.row)
    requires s.row.Some? && s.row.value.pendingPath == Some(p)
    ensures var step, row := ApplyBoundary(s, ws), s.row.value;
            if p in ws.repositories then
              Wrote(s, step, Some(p), Some(ws.repositories[p]), Manual) && Restarted(s, step, true)
            else
              var identity := if row.path.Some? && row.path.value in ws.repositories
                              then Some(ws.repositories[row.path.value]) else None;
              Wrote(s, step, row.path, identity, row.mode) && Restarted(s, step, row.identity != identity)
  {
    InspectionWants(ws, s.row);
  }

  /** A boundary reports a change exactly when it forgets the native sessions, and any change of path
      or identity is reported. */
  lemma BoundaryReportsChanges(s: AgentState, ws: Workspace)
    requires ws.Workspace? && WellFormed(ws) && RowInvariant(s.row)
    ensures var step := ApplyBoundary(s, ws);
            && (step.outcome.changed ==> NoNativeSession(step.state))
            && (!step.outcome.changed ==>
                  step.state.attempts == s.attempts && step.state.conversations == s.conversations)
            && (Key(step.state.row).path != Key(s.row).path || Key(step.state.row).identity != Key(s.row).identity
                ==> step.outcome.changed)
  {
  }

  // ---- Explicit operations ----

  /** The repository a requested spelling stands for. */
  ghost predicate Names(ws: Workspace, requested: Path, p: Path)
    requires ws.Workspace?
  {
    && p in ws.repositories
    && (if requested in ws.aliases then p == ws.aliases[requested] else p == requested)
  }

  /** A selection stores the repository manually with nothing pending; sessions go iff that is news. */
  lemma SelectWrites(s: AgentState, ws: Workspace, requested: Path, p: Path)
    requires ws.Workspace? && WellFormed(ws) && Names(ws, requested, p)
    ensures var step := Select(s, ws, requested);
            && Wrote(s, step, Some(p), Some(ws.repositories[p]), Manual)
            && Restarted(s, step,
                         s.row.None? || s.row.value.path != Some(p)
                         || s.row.value.identity != Some(ws.repositories[p]) || s.row.value.mode != Manual)
  {
  }

  /** A live selection also leaves the same path pending, and always forgets the sessions. */
  lemma SelectLiveWrites(s: AgentState, ws: Workspace, requested: Path, p: Path, expected: Option<int>)
    requires ws.Workspace? && WellFormed(ws) && Names(ws, requested, p)
    ensures var step := SelectLive(s, ws, requested, expected);
            var current := if s.row.Some? then Some(s.row.value.generation) else None;
            if current != expected then step == Step(s, StaleGeneration)
            else
              && step.state.row ==
                 Some(Stored(Some(p), Some(ws.repositories[p]), Manual, Some(p), Some(Manual),
                             if s.row.Some? then s.row.value.generation + 1 else 1))
              && Restarted(s, step, true)
  {
  }

  /** A clear is stored whatever the workspace is like; sessions go iff that is news. */
  lemma ClearWrites(s: AgentState, ws: Workspace)
    requires WellFormed(ws)
    ensures var step := Clear(s, ws);
            var news := s.row.None? || s.row.value.path.Some? || s.row.value.identity.Some?
              || s.row.value.mode != Cleared;
            && Wrote(s, step, None, None, Cleared)
            && (ws.Unavailable? ==> step.outcome == Refused)
            && (ws.Workspace? ==> Restarted(s, step, news))
            && (news ==> NoNativeSession(step.state))
            && (!news ==> step.state.attempts == s.attempts && step.state.conversations == s.conversations)
  {
  }

  /** A proposal keeps path, identity, mode and sessions, and sets what is pending. */
  lemma ProposalsWrite(s: AgentState, ws: Workspace, requested: Path, p: Path)
    requires ws.Workspace? && WellFormed(ws) && Names(ws, requested, p)
    ensures var next := if s.row.Some? then s.row.value.generation + 1 else 1;
            var path := if s.row.Some? then s.row.value.path else None;
            var identity := if s.row.Some? then s.row.value.identity else None;
            var mode := if s.row.Some? then s.row.value.mode else Automatic;
            && Propose(s, ws, requested).state ==
               AgentState(Some(Stored(path, identity, mode, Some(p), Some(Manual), next)), s.attempts, s.conversations)
            && ProposeClear(s, ws).state ==
               AgentState(Some(Stored(path, identity, mode, None, Some(Cleared), next)), s.attempts, s.conversations)
  {
  }

  /** A path that names no repository, or a workspace that is gone, refuses the operation. */
  lemma UnusablePathIsRefused(s: AgentState, ws: Workspace, requested: Path, expected: Option<int>)
    requires WellFormed(ws) && (ws.Workspace? ==> forall p :: p in ws.repositories ==> !Names(ws, requested, p))
    ensures Select(s, ws, requested) == Step(s, Refused)
    ensures SelectLive(s, ws, requested, expected) == Step(s, Refused)
    ensures Propose(s, ws, requested) == Step(s, Refused)
  {
    if ws.Workspace? {
      var p := if requested in ws.aliases then ws.aliases[requested] else requested;
      assert p in ws.repositories ==> Names(ws, requested, p);
    }
  }

  // ---- What an inspection reports ----

  /** The repositories on offer: the discovered ones, and those the stored and the pending path name.
      Identities are the repositories' own. */
  lemma InspectionOffers(ws: Workspace, row: Option<Stored>, p: Path)
    requires ws.Workspace? && WellFormed(ws)
    ensures p in Inspect(ws, row).candidates <==>
            || p in ws.discovered
            || (row.Some? && row.value.path.Some? && Names(ws, row.value.path.value, p))
            || (row.Some? && row.value.pendingPath.Some? && Names(ws, row.value.pendingPath.value, p))
    ensures p in Inspect(ws, row).candidates ==> Inspect(ws, row).candidates[p] == ws.repositories[p]
    ensures Inspect(ws, row).truncated == ws.truncated
  {
  }

  /** The reported state of a row with nothing pending. */
  lemma InspectionReports(ws: Workspace, row: Option<Stored>)
    requires ws.Workspace? && WellFormed(ws) && RowInvariant(row) && (row.Some? ==> row.value.pendingMode.None?)
    ensures var state := Inspect(ws, row).state;
            if row.Some? && row.value.mode == Cleared then state == Emptied
            else if row.Some? && row.value.path.Some? then
              var p := row.value.path.value;
              state == if p !in ws.repositories then Missing
                       else if row.value.identity == Some(ws.repositories[p]) then Attached else Pending
            else if "." in ws.discovered || (!ws.truncated && |ws.discovered| == 1) then state == Pending
            else state == if ws.discovered == {} && !ws.truncated then NoRepository else Ambiguous
  {
    CandidatesAreRepositories(ws, row);
    assert CandidatesFor(ws, None).Keys == ws.discovered;
  }

  /** With something pending the state says so, or that the proposal's repository is gone. */
  lemma InspectionReportsPending(ws: Workspace, row: Stored)
    requires ws.Workspace? && WellFormed(ws) && RowInvariant(Some(row)) && row.pendingMode.Some?
    ensures Inspect(ws, Some(row)).state ==
            if row.pendingPath.Some? && row.pendingPath.value !in ws.repositories then Missing else Pending
  {
    CandidatesAreRepositories(ws, Some(row));
  }
}

/** Open Git baselines that share a workspace: whose line attribution can be trusted. */
module GitBaselines {
  import opened Options

  type Workspace = string
  /** Milliseconds since the epoch. */
  type Time = int

  const GIT_SNAPSHOT_DEBOUNCE_MILLIS: int := 20_000

  datatype WorkKey = Attempt(id: string) | ConversationTurn(id: string)

  datatype GitState = Available | Partial | Unavailable

  /** A row of `dashboard_git_baselines`; open until it is finalized. */
  datatype Baseline = Baseline(workspace: Workspace, state: GitState, lastSnapshot: Option<Time>, finalized: bool)

  type Baselines = map<WorkKey, Baseline>

  /** Unavailable dominates, then partial. */
  function Worse(a: GitState, b: GitState): GitState {
    if a.Unavailable? || b.Unavailable? then Unavailable else if a.Partial? || b.Partial? then Partial else Available
  }

  function Rank(s: GitState): nat {
    match s case Available => 0 case Partial => 1 case Unavailable => 2
  }

  predicate OpenIn(table: Baselines, w: WorkKey, ws: Workspace) {
    w in table && !table[w].finalized && table[w].workspace == ws
  }

  predicate InScope(b: Baseline, ws: Option<Workspace>) {
    ws.None? || b.workspace == ws.value
  }

  /** `finalize_inactive_git_baselines`: close windows whose work is not executing. */
  function Finalized(table: Baselines, active: set<WorkKey>, ws: Option<Workspace>): Baselines {
    map w | w in table ::
      if w !in active && InScope(table[w], ws) then table[w].(finalized := true) else table[w]
  }

  predicate Concurrent(table: Baselines, w: WorkKey, ws: Workspace) {
    exists other | other in table :: other != w && OpenIn(table, other, ws)
  }

  /** Every other open baseline of the workspace becomes partial unless it is unavailable. */
  function Degraded(table: Baselines, w: WorkKey, ws: Workspace): Baselines {
    map other | other in table ::
      if other != w && OpenIn(table, other, ws) && !table[other].state.Unavailable? then table[other].(state := Partial)
      else table[other]
  }

  /** `capture_git_baseline` with the snapshot Git reported; `dirty` means it listed files. */
  function Captured(table: Baselines, active: set<WorkKey>, w: WorkKey, ws: Workspace, snapshot: GitState,
                    dirty: bool): Baselines {
    var observed := if dirty then Partial else snapshot;
    var current := Finalized(table, active, Some(ws));
    if Concurrent(current, w, ws) && !observed.Unavailable?
    then Degraded(current, w, ws)[w := Baseline(ws, Partial, None, false)]
    else current[w := Baseline(ws, observed, None, false)]
  }

  predicate Debounced(b: Baseline, final: bool, now: Time) {
    !final && b.lastSnapshot.Some? && now - b.lastSnapshot.value < GIT_SNAPSHOT_DEBOUNCE_MILLIS
  }

  /** `record_git_snapshot`. */
  function Recorded(table: Baselines, w: WorkKey, snapshot: GitState, final: bool, now: Time): Baselines {
    if w !in table || table[w].finalized || Debounced(table[w], final, now) then table
    else table[w := table[w].(state := Worse(table[w].state, snapshot), lastSnapshot := Some(now), finalized := final)]
  }

  class BaselineTable {
    var table: Baselines

    method FinalizeInactive(active: set<WorkKey>, ws: Option<Workspace>)
      modifies this
      ensures table == Finalized(old(table), active, ws)
      ensures table.Keys == old(table).Keys
      ensures forall w :: w in table ==>
                && table[w].workspace == old(table)[w].workspace && table[w].state == old(table)[w].state
                && table[w].lastSnapshot == old(table)[w].lastSnapshot
      ensures forall w :: w in table ==>
                (table[w].finalized <==> old(table)[w].finalized || (w !in active && InScope(old(table)[w], ws)))
      ensures old(Exclusive(table)) ==> Exclusive(table)
    {
      if Exclusive(table) {
        FinalizeKeepsExclusive(table, active, ws);
      }
      table := Finalized(table, active, ws);
    }

    method Capture(active: set<WorkKey>, w: WorkKey, ws: Workspace, snapshot: GitState, dirty: bool)
      returns (state: GitState)
      modifies this
      ensures table == Captured(old(table), active, w, ws, snapshot, dirty)
      ensures w in table && table[w].state == state && OpenIn(table, w, ws)
      ensures old(Exclusive(table)) ==> Exclusive(table)
    {
      ghost var before := table;
      state := if dirty then Partial else snapshot;
      FinalizeInactive(active, Some(ws));
      if Concurrent(table, w, ws) && !state.Unavailable? {
        state := Partial;
        table := Degraded(table, w, ws);
      }
      table := table[w := Baseline(ws, state, None, false)];
      assert table == Captured(before, active, w, ws, snapshot, dirty);
      if Exclusive(before) {
        CaptureKeepsExclusive(before, active, w, ws, snapshot, dirty);
      }
    }

    method Record(w: WorkKey, snapshot: GitState, final: bool, now: Time) returns (state: Option<GitState>)
      modifies this
      ensures table == Recorded(old(table), w, snapshot, final, now)
      ensures state.Some? <==> w in old(table) && !old(table)[w].finalized && !Debounced(old(table)[w], final, now)
      ensures state.Some? ==> w in table && table[w].state == state.value && (final ==> table[w].finalized)
      ensures old(Exclusive(table)) ==> Exclusive(table)
    {
      ghost var before := table;
      assert Exclusive(before) ==> Exclusive(Recorded(before, w, snapshot, final, now)) by {
        if Exclusive(before) {
          RecordKeepsExclusive(before, w, snapshot, final, now);
        }
      }
      if w !in table || table[w].finalized {
        return None;
      }
      if Debounced(table[w], final, now) {
        return None;
      }
      var combined := Worse(table[w].state, snapshot);
      table := table[w := table[w].(state := combined, lastSnapshot := Some(now), finalized := final)];
      state := Some(combined);
    }
  }

  // ---- What every run keeps ----

  /** A workspace with an "available" open baseline has all its other open baselines "unavailable". */
  ghost predicate Exclusive(table: Baselines) {
    forall a, b, ws :: OpenIn(table, a, ws) && OpenIn(table, b, ws) && a != b && table[a].state.Available? ==>
      table[b].state.Unavailable?
  }

  datatype Event =
    | Capturing(active: set<WorkKey>, work: WorkKey, workspace: Workspace, snapshot: GitState, dirty: bool)
    | Recording(work: WorkKey, snapshot: GitState, final: bool, now: Time)
    | Finalizing(active: set<WorkKey>, scope: Option<Workspace>)
    | Pruning(removed: set<WorkKey>)

  ghost function After(table: Baselines, e: Event): Baselines {
    match e
    case Capturing(active, w, ws, snapshot, dirty) => Captured(table, active, w, ws, snapshot, dirty)
    case Recording(w, snapshot, final, now) => Recorded(table, w, snapshot, final, now)
    case Finalizing(active, scope) => Finalized(table, active, scope)
    case Pruning(removed) => table - removed
  }

  ghost function AfterRun(table: Baselines, run: seq<Event>): Baselines
    decreases |run|
  {
    if run == [] then table else After(AfterRun(table, run[..|run| - 1]), run[|run| - 1])
  }

  lemma FinalizeKeepsExclusive(table: Baselines, active: set<WorkKey>, ws: Option<Workspace>)
    requires Exclusive(table)
    ensures Exclusive(Finalized(table, active, ws))
  {
    var table' := Finalized(table, active, ws);
    forall a, b, v | OpenIn(table', a, v) && OpenIn(table', b, v) && a != b && table'[a].state.Available?
      ensures table'[b].state.Unavailable?
    {
      assert OpenIn(table, a, v) && OpenIn(table, b, v);
    }
  }

  lemma CaptureKeepsExclusive(table: Baselines, active: set<WorkKey>, w: WorkKey, ws: Workspace, snapshot: GitState,
                              dirty: bool)
    requires Exclusive(table)
    ensures Exclusive(Captured(table, active, w, ws, snapshot, dirty))
  {
    var current := Finalized(table, active, Some(ws));
    FinalizeKeepsExclusive(table, active, Some(ws));
    var table' := Captured(table, active, w, ws, snapshot, dirty);
    forall a, b, v | OpenIn(table', a, v) && OpenIn(table', b, v) && a != b && table'[a].state.Available?
      ensures table'[b].state.Unavailable?
    {
      if a != w && b != w {
        assert OpenIn(current, a, v) && OpenIn(current, b, v);
      } else {
        var other := if a == w then b else a;
        assert OpenIn(current, other, ws) && Concurrent(current, w, ws);
      }
    }
  }

  lemma RecordKeepsExclusive(table: Baselines, w: WorkKey, snapshot: GitState, final: bool, now: Time)
    requires Exclusive(table)
    ensures Exclusive(Recorded(table, w, snapshot, final, now))
  {
    var table' := Recorded(table, w, snapshot, final, now);
    forall a, b, v | OpenIn(table', a, v) && OpenIn(table', b, v) && a != b && table'[a].state.Available?
      ensures table'[b].state.Unavailable?
    {
      assert OpenIn(table, a, v) && OpenIn(table, b, v);
    }
  }

  /** In every run, exact attribution is exclusive within a workspace. */
  lemma {:induction false} RunKeepsExclusive(table: Baselines, run: seq<Event>)
    requires Exclusive(table)
    ensures Exclusive(AfterRun(table, run))
    decreases |run|
  {
    if run != [] {
      var before, e := AfterRun(table, run[..|run| - 1]), run[|run| - 1];
      RunKeepsExclusive(table, run[..|run| - 1]);
      match e
      case Capturing(active, w, ws, snapshot, dirty) => CaptureKeepsExclusive(before, active, w, ws, snapshot, dirty);
      case Recording(w, snapshot, final, now) => RecordKeepsExclusive(before, w, snapshot, final, now);
      case Finalizing(active, scope) => FinalizeKeepsExclusive(before, active, scope);
      case Pruning(removed) =>
        forall a, b, v | OpenIn(before - removed, a, v) && OpenIn(before - removed, b, v) && a != b
          && (before - removed)[a].state.Available?
          ensures (before - removed)[b].state.Unavailable?
        {
          assert OpenIn(before, a, v) && OpenIn(before, b, v);
        }
    }
  }

  /** In every run from the empty table: of two open baselines in one workspace, one of them available,
      the other is unavailable. */
  lemma ExactAttributionIsExclusive(run: seq<Event>, a: WorkKey, b: WorkKey)
    requires var table := AfterRun(map[], run);
             && a in table && b in table && a != b && table[a].workspace == table[b].workspace
             && !table[a].finalized && !table[b].finalized && table[a].state == Available
    ensures AfterRun(map[], run)[b].state == Unavailable
  {
    RunKeepsExclusive(map[], run);
    var table := AfterRun(map[], run);
    assert OpenIn(table, a, table[a].workspace) && OpenIn(table, b, table[a].workspace);
  }

  /** Between two captures of the same work its state only moves available, partial, unavailable,
      and once finalized it never reopens. */
  lemma {:induction false} StateOnlyWorsens(table: Baselines, run: seq<Event>, w: WorkKey)
    requires w in table && forall i :: 0 <= i < |run| && run[i].Capturing? ==> run[i].work != w
    ensures var table' := AfterRun(table, run);
            w in table' ==>
              && Rank(table'[w].state) >= Rank(table[w].state) && (table[w].finalized ==> table'[w].finalized)
              && table'[w].workspace == table[w].workspace
    decreases |run|
  {
    if run != [] {
      StateOnlyWorsens(table, run[..|run| - 1], w);
      NeverReappears(table, run[..|run| - 1], w);
    }
  }

  lemma NeverReappears(table: Baselines, run: seq<Event>, w: WorkKey)
    requires forall i :: 0 <= i < |run| && run[i].Capturing? ==> run[i].work != w
    ensures w in AfterRun(table, run) ==> w in table
    decreases |run|
  {
    if run != [] {
      NeverReappears(table, run[..|run| - 1], w);
    }
  }

  // ---- One step, row by row ----

  /** A snapshot of an open baseline that is final, or the first, or at least 20 seconds after the last:
      the state becomes the worse of both, the time is noted, and a final one closes the baseline. Any
      other snapshot changes nothing, and other baselines are never touched. */
  lemma RecordedRow(table: Baselines, w: WorkKey, snapshot: GitState, final: bool, now: Time)
    ensures var table' := Recorded(table, w, snapshot, final, now);
            && table'.Keys == table.Keys
            && (forall v :: v in table && v != w ==> table'[v] == table[v])
            && (w in table ==>
                  var taken := !table[w].finalized
                               && (final || table[w].lastSnapshot.None? || now - table[w].lastSnapshot.value >= 20_000);
                  if taken then
                    && table'[w].workspace == table[w].workspace && table'[w].lastSnapshot == Some(now)
                    && table'[w].finalized == final
                    && Rank(table'[w].state) ==
                       (if Rank(table[w].state) >= Rank(snapshot) then Rank(table[w].state) else Rank(snapshot))
                  else table'[w] == table[w])
  {
  }

  /** The ranks tell the states apart. */
  lemma RankOrders(s: GitState)
    ensures (s == Available <==> Rank(s) == 0) && (s == Partial <==> Rank(s) == 1)
            && (s == Unavailable <==> Rank(s) == 2)
  {
  }

  /** A capture opens the work's own baseline, unavailable if Git was not available, available only if
      Git reported no dirty file and no other baseline is left open in the workspace. */
  lemma CapturedRow(table: Baselines, active: set<WorkKey>, w: WorkKey, ws: Workspace, snapshot: GitState, dirty: bool)
    ensures var table' := Captured(table, active, w, ws, snapshot, dirty);
            var shared :=
              exists v :: v in table && v != w && v in active && !table[v].finalized && table[v].workspace == ws;
            && w in table' && table'[w].workspace == ws && table'[w].lastSnapshot.None? && !table'[w].finalized
            && table'[w].state ==
               (if dirty then Partial else if snapshot == Unavailable then Unavailable
                else if shared then Partial else snapshot)
  {
    var current := Finalized(table, active, Some(ws));
    if v :| v in table && v != w && v in active && !table[v].finalized && table[v].workspace == ws {
      assert OpenIn(current, v, ws);
    }
    if v :| v in current && v != w && OpenIn(current, v, ws) {
      assert v in table && v in active && !table[v].finalized && table[v].workspace == ws;
    }
  }

  /** It closes the workspace's baselines of work that is not executing and, if it shares the workspace,
      makes those left open partial unless unavailable. */
  lemma CapturedOthers(table: Baselines, active: set<WorkKey>, w: WorkKey, ws: Workspace, snapshot: GitState,
                       dirty: bool, v: WorkKey)
    requires v != w
    ensures var table' := Captured(table, active, w, ws, snapshot, dirty);
            && (v in table' <==> v in table)
            && (v in table ==>
                  && table'[v].workspace == table[v].workspace && table'[v].lastSnapshot == table[v].lastSnapshot
                  && (table'[v].finalized <==>
                      table[v].finalized || (v !in active && table[v].workspace == ws))
                  && table'[v].state ==
                     (if table[v].workspace == ws && !table'[v].finalized && (dirty || snapshot != Unavailable)
                         && table[v].state != Unavailable
                      then Partial else table[v].state))
  {
    var current := Finalized(table, active, Some(ws));
    if v in table && table[v].workspace == ws && !current[v].finalized {
      assert OpenIn(current, v, ws) && Concurrent(current, w, ws);
    }
  }
}

/** Retention of the event log, and why no client can tell that it happened. */
module EventRetention {
  import opened Options
  import opened EventLog

  const EVENT_RETENTION_MILLIS: int := 8 * 24 * 60 * 60 * 1000
  const EVENT_RETENTION_ROWS: int := 20_000
  const CLOCK_SLACK_MILLIS: int := EVENT_RETENTION_MILLIS - Millis(Week)

  datatype Range = Hour | Day | Week

  function Millis(range: Range): int {
    match range
    case Hour => 60 * 60 * 1000
    case Day => 24 * 60 * 60 * 1000
    case Week => 7 * 24 * 60 * 60 * 1000
  }

  /** The rows a request made at `now` can return. */
  function Requested(now: int, range: Range, project: Option<string>): Filter {
    Filter(now - Millis(range), project)
  }

  // ---- Logs with the same rows ----

  lemma LastInOrder(a: seq<Event>, e: Event)
    requires Ascending(a) && a != []
    ensures e in a ==> e.cursor <= a[|a| - 1].cursor
    ensures e in a[..|a| - 1] <==> e in a && e != a[|a| - 1]
  {
    assert a == a[..|a| - 1] + [a[|a| - 1]];
  }

  lemma SameLast(a: seq<Event>, b: seq<Event>)
    requires Ascending(a) && Ascending(b) && a != [] && b != [] && a[|a| - 1] in b && b[|b| - 1] in a
    ensures a[|a| - 1] == b[|b| - 1]
  {
    LastInOrder(a, b[|b| - 1]);
    LastInOrder(b, a[|a| - 1]);
  }

  lemma SameInit(a: seq<Event>, b: seq<Event>, e: Event)
    requires Ascending(a) && Ascending(b) && a != [] && b != [] && a[|a| - 1] == b[|b| - 1] && (e in a <==> e in b)
    ensures e in a[..|a| - 1] <==> e in b[..|b| - 1]
  {
    LastInOrder(a, e);
    LastInOrder(b, e);
  }

  lemma SameEmptiness(a: seq<Event>, b: seq<Event>)
    requires forall e :: e in a <==> e in b
    ensures a == [] <==> b == []
  {
    assert a != [] ==> a[0] in b;
    assert b != [] ==> b[0] in a;
  }

  /** Logs with the same rows are the same log. */
  lemma {:induction false} SameRowsSameLog(a: seq<Event>, b: seq<Event>)
    requires Ascending(a) && Ascending(b) && forall e :: e in a <==> e in b
    ensures a == b
  {
    SameEmptiness(a, b);
    if a != [] {
      SameLast(a, b);
      var a', b' := a[..|a| - 1], b[..|b| - 1];
      forall e ensures e in a' <==> e in b' {
        SameInit(a, b, e);
      }
      SameRowsSameLog(a', b');
      assert a == a' + [a[|a| - 1]] && b == b' + [b[|b| - 1]];
    }
  }

  // ---- One run of retention ----

  predicate Expired(log: seq<Event>, e: Event, cutoff: int) {
    e.occurredAt < cutoff || e.cursor <= Latest(log) - EVENT_RETENTION_ROWS
  }

  /** `prune` on the event table. */
  function Pruned(log: seq<Event>, cutoff: int): seq<Event> {
    Keep(log, (e: Event) => !Expired(log, e, cutoff))
  }

  lemma PruneFilters(log: seq<Event>, cutoff: int)
    requires Ascending(log)
    ensures Ascending(Pruned(log, cutoff))
    ensures forall e :: e in Pruned(log, cutoff) <==> e in log && !Expired(log, e, cutoff)
  {
    KeepFilters(log, (e: Event) => !Expired(log, e, cutoff));
  }

  /** Retention at a time keeps the events of the last eight days among the last 20,000 cursors. */
  lemma PruneReadsTheLog(log: seq<Event>, now: int, e: Event)
    requires Ascending(log)
    ensures e in Pruned(log, now - EVENT_RETENTION_MILLIS) <==>
            && e in log && e.occurredAt >= now - 691_200_000 && e.cursor > log[|log| - 1].cursor - 20_000
  {
    PruneFilters(log, now - EVENT_RETENTION_MILLIS);
  }

  /** A request covers the last hour, day or week. */
  lemma RequestedWindow(now: int, project: Option<string>)
    ensures Requested(now, Hour, project) == Filter(now - 3_600_000, project)
    ensures Requested(now, Day, project) == Filter(now - 86_400_000, project)
    ensures Requested(now, Week, project) == Filter(now - 604_800_000, project)
  {
  }

  // ---- What a client sees over every run ----

  datatype Step =
    | Append(id: string, kind: Kind, occurredAt: int, project: Option<string>)
    | Prune(now: int)
    | DeleteProject(deleted: string)

  /** The table, what it would hold without retention, and the last cursor AUTOINCREMENT gave. */
  datatype State = State(log: seq<Event>, complete: seq<Event>, last: nat)

  function WithoutProject(rows: seq<Event>, project: string): seq<Event> {
    Keep(rows, (e: Event) => e.project != Some(project))
  }

  /** Events of a deleted Project go with it (CASCADE), from either log. */
  function After(s: State, step: Step): State {
    match step
    case Append(id, kind, at, project) =>
      var e := Event(s.last + 1, id, kind, at, project);
      State(s.log + [e], s.complete + [e], s.last + 1)
    case Prune(now) => s.(log := Pruned(s.log, now - EVENT_RETENTION_MILLIS))
    case DeleteProject(p) => s.(log := WithoutProject(s.log, p), complete := WithoutProject(s.complete, p))
  }

  /** What each step does to the table and to the log that retention never touches. */
  lemma StepReadsTheLogs(s: State, step: Step, e: Event)
    requires Ascending(s.log) && Ascending(s.complete)
    ensures var s' := After(s, step);
            match step
            case Append(id, kind, at, project) =>
              var e0 := Event(s.last + 1, id, kind, at, project);
              s' == State(s.log + [e0], s.complete + [e0], s.last + 1)
            case Prune(now) =>
              && s'.complete == s.complete && s'.last == s.last
              && (e in s'.log <==>
                  && e in s.log && e.occurredAt >= now - 691_200_000
                  && e.cursor > s.log[|s.log| - 1].cursor - 20_000)
            case DeleteProject(p) =>
              && s'.last == s.last
              && (e in s'.log <==> e in s.log && e.project != Some(p))
              && (e in s'.complete <==> e in s.complete && e.project != Some(p))
  {
    match step
    case Append(_, _, _, _) =>
    case Prune(now) => PruneReadsTheLog(s.log, now, e);
    case DeleteProject(p) =>
      KeepFilters(s.log, (r: Event) => r.project != Some(p));
      KeepFilters(s.complete, (r: Event) => r.project != Some(p));
  }

  function AfterRun(run: seq<Step>): State {
    if run == [] then State([], [], 0) else After(AfterRun(run[..|run| - 1]), run[|run| - 1])
  }

  /** Retention never ran more than a day ahead of `now`: retention outlasts the longest range by a
      day, so even a clock set back that far does no harm. */
  ghost predicate PrunedUntil(run: seq<Step>, now: int) {
    forall i :: 0 <= i < |run| && run[i].Prune? ==> run[i].now <= now + CLOCK_SLACK_MILLIS
  }

  ghost predicate Numbered(s: State) {
    && Ascending(s.log) && Ascending(s.complete)
    && (forall e :: e in s.complete ==> e.cursor <= s.last)
    && (forall e :: e in s.log ==> e in s.complete)
  }

  /** A removed row of the window lies below every row that is left. */
  ghost predicate RemovedFromBelow(s: State, since: int) {
    forall e, r :: e in s.complete && e !in s.log && e.occurredAt >= since && r in s.log ==> e.cursor < r.cursor
  }

  lemma AppendKeepsOrder(rows: seq<Event>, e: Event)
    requires Ascending(rows) && e.cursor > 0 && forall r :: r in rows ==> r.cursor < e.cursor
    ensures Ascending(rows + [e])
  {
    forall i | 0 <= i < |rows| ensures rows[i].cursor < e.cursor {
      assert rows[i] in rows;
    }
  }

  lemma StepKeepsNumbered(s: State, step: Step)
    requires Numbered(s)
    ensures Numbered(After(s, step))
  {
    match step
    case Append(id, kind, at, project) =>
      var e := Event(s.last + 1, id, kind, at, project);
      AppendKeepsOrder(s.log, e);
      AppendKeepsOrder(s.complete, e);
    case Prune(now) =>
      PruneFilters(s.log, now - EVENT_RETENTION_MILLIS);
    case DeleteProject(p) =>
      KeepFilters(s.log, (e: Event) => e.project != Some(p));
      KeepFilters(s.complete, (e: Event) => e.project != Some(p));
  }

  lemma StepRemovesFromBelow(s: State, step: Step, since: int)
    requires Numbered(s) && RemovedFromBelow(s, since)
    requires step.Prune? ==> step.now - EVENT_RETENTION_MILLIS <= since
    ensures RemovedFromBelow(After(s, step), since)
  {
    match step
    case Append(id, kind, at, project) =>
      assert forall e :: e in s.complete ==> e.cursor < s.last + 1;
    case Prune(now) =>
      PruneFilters(s.log, now - EVENT_RETENTION_MILLIS);
    case DeleteProject(p) =>
      KeepFilters(s.log, (e: Event) => e.project != Some(p));
      KeepFilters(s.complete, (e: Event) => e.project != Some(p));
  }

  lemma {:induction false} RunRemovesFromBelow(run: seq<Step>, now: int, range: Range)
    requires PrunedUntil(run, now)
    ensures Numbered(AfterRun(run)) && RemovedFromBelow(AfterRun(run), now - Millis(range))
  {
    if run != [] {
      var init, step := run[..|run| - 1], run[|run| - 1];
      RunRemovesFromBelow(init, now, range);
      StepKeepsNumbered(AfterRun(init), step);
      StepRemovesFromBelow(AfterRun(init), step, now - Millis(range));
    }
  }

  /** Whatever was appended and removed before, and in whatever order events were stamped: a client
      that is not told to reset can still read every event of its window after its cursor. */
  lemma NoClientMissesAnEvent(run: seq<Step>, now: int, range: Range, project: Option<string>, after: int, e: Event)
    requires PrunedUntil(run, now) && after > 0 && !ResetRequired(AfterRun(run).log, after)
    requires e in AfterRun(run).complete && Matches(e, Requested(now, range, project)) && e.cursor > after
    ensures e in AfterRun(run).log
  {
    var s := AfterRun(run);
    RunRemovesFromBelow(run, now, range);
    assert s.log[0] in s.log;
  }

  lemma CompleteLogNeedsNoReset(s: State, after: int)
    requires Numbered(s) && after > 0 && !ResetRequired(s.log, after)
    ensures !ResetRequired(s.complete, after)
  {
    var first, last := s.log[0], s.log[|s.log| - 1];
    assert first in s.complete && last in s.complete;
    LastInOrder(s.complete, last);
  }

  /** A replay that asks for no reset returns exactly what it would return had nothing ever been
      removed by retention, page by page and as a whole. */
  lemma RetentionIsInvisible(run: seq<Step>, now: int, range: Range, project: Option<string>, after: int, limit: int,
                             pages: nat)
    requires PrunedUntil(run, now) && after > 0 && !ResetRequired(AfterRun(run).log, after)
    requires pages >= |Select(AfterRun(run).log, Requested(now, range, project))|
    ensures var s, f := AfterRun(run), Requested(now, range, project);
            && !ResetRequired(s.complete, after)
            && ReplayAfter(s.log, f, after, limit).events == ReplayAfter(s.complete, f, after, limit).events
            && ReplayPages(s.log, f, after, limit, pages) == Above(Select(s.complete, f), after)
  {
    var s, f := AfterRun(run), Requested(now, range, project);
    RunRemovesFromBelow(run, now, range);
    CompleteLogNeedsNoReset(s, after);
    SelectKeepsOrder(s.log, f);
    SelectKeepsOrder(s.complete, f);
    AboveKeepsOrder(Select(s.log, f), after);
    AboveKeepsOrder(Select(s.complete, f), after);
    forall e | e in Above(Select(s.complete, f), after) ensures e in Above(Select(s.log, f), after) {
      NoClientMissesAnEvent(run, now, range, project, after, e);
    }
    SameRowsSameLog(Above(Select(s.log, f), after), Above(Select(s.complete, f), after));
    ReplayPagesFrom(s.log, f, after, limit, pages);
  }

  // ---- Rows that no window shows ----

  ghost predicate Chronological(log: seq<Event>) {
    forall i, j :: 0 <= i < j < |log| ==> log[i].occurredAt <= log[j].occurredAt
  }

  lemma {:induction false} FirstKept(log: seq<Event>, cutoff: int, n: nat) returns (k: nat)
    requires n <= |log|
    ensures k <= n && forall i :: 0 <= i < k ==> Expired(log, log[i], cutoff)
    ensures k < n ==> !Expired(log, log[k], cutoff)
  {
    k := n;
    if n > 0 {
      k := FirstKept(log, cutoff, n - 1);
      if k == n - 1 && Expired(log, log[k], cutoff) {
        k := n;
      }
    }
  }

  /** When cursors follow time, retention removes a prefix of the log. */
  lemma PruningRemovesAPrefix(log: seq<Event>, cutoff: int)
    requires Ascending(log) && Chronological(log)
    ensures exists k :: 0 <= k <= |log| && Pruned(log, cutoff) == log[k..]
  {
    var k := FirstKept(log, cutoff, |log|);
    PruneFilters(log, cutoff);
    forall e ensures e in Pruned(log, cutoff) <==> e in log[k..] {
      KeptFrom(log, cutoff, k, e);
    }
    SameRowsSameLog(Pruned(log, cutoff), log[k..]);
  }

  lemma KeptFrom(log: seq<Event>, cutoff: int, k: nat, e: Event)
    requires Ascending(log) && Chronological(log) && k <= |log|
    requires forall i :: 0 <= i < k ==> Expired(log, log[i], cutoff)
    requires k < |log| ==> !Expired(log, log[k], cutoff)
    ensures e in log && !Expired(log, e, cutoff) <==> e in log[k..]
  {
    assert log == log[..k] + log[k..];
    assert forall i :: k <= i < |log| ==> !Expired(log, log[i], cutoff);
  }

  /** A client whose positive cursor needs no reset has lost nothing to a removed prefix. */
  lemma NoSilentLoss(log: seq<Event>, k: nat, after: int)
    requires Ascending(log) && k <= |log| && after > 0 && !ResetRequired(log[k..], after)
    ensures forall i :: 0 <= i < k ==> log[i].cursor <= after
  {
  }

  ghost predicate Contiguous(log: seq<Event>) {
    forall i, j :: 0 <= i <= j < |log| ==> log[j].cursor - log[i].cursor == j - i
  }

  /** In a log that starts at cursor 1 and has no gaps, a reset is asked for exactly when a later
      event was removed, or the client is ahead of the log. */
  lemma ResetIsExact(log: seq<Event>, k: nat, after: int)
    requires Ascending(log) && Contiguous(log) && k < |log| && log[0].cursor == 1 && after > 0
    ensures ResetRequired(log[k..], after) <==> after > Latest(log) || exists i :: 0 <= i < k && log[i].cursor > after
  {
    if k > 0 && after < log[k].cursor - 1 {
      assert log[k - 1].cursor > after;
    }
  }

  ghost predicate Kept(log: seq<Event>, cutoff: int, i: int)
    requires 0 <= i < |log|
  {
    log[i] in Pruned(log, cutoff)
  }

  /** No removed row, inside or outside the window a client asks for, lies after an accepted cursor. */
  ghost predicate RemovesNothingAfterCursors(log: seq<Event>, cutoff: int) {
    forall after, i ::
      0 <= i < |log| && after > 0 && !ResetRequired(Pruned(log, cutoff), after) && !Kept(log, cutoff, i)
      ==> log[i].cursor <= after
  }

  /** Among the rows the row limit keeps, cursors follow time. */
  ghost predicate RecentlyChronological(log: seq<Event>) {
    forall i, j :: 0 <= i < j < |log| && log[i].cursor > Latest(log) - EVENT_RETENTION_ROWS
                   ==> log[i].occurredAt <= log[j].occurredAt
  }

  lemma NoResetFromKept(log: seq<Event>, cutoff: int, e: Event)
    requires Ascending(log) && e in log && !Expired(log, e, cutoff)
    ensures !ResetRequired(Pruned(log, cutoff), e.cursor)
  {
    PruneFilters(log, cutoff);
    NoResetAtLoggedCursor(Pruned(log, cutoff), e);
  }

  /** One cutoff removes no row after an accepted cursor exactly when no expired row follows a kept one. */
  lemma RemovalIffExpiredFollowsKept(log: seq<Event>, cutoff: int)
    requires Ascending(log)
    ensures RemovesNothingAfterCursors(log, cutoff) <==>
            forall i, j :: 0 <= i < j < |log| && Expired(log, log[j], cutoff) ==> Expired(log, log[i], cutoff)
  {
    var pruned := Pruned(log, cutoff);
    PruneFilters(log, cutoff);
    if i, j :| 0 <= i < j < |log| && Expired(log, log[j], cutoff) && !Expired(log, log[i], cutoff) {
      NoResetFromKept(log, cutoff, log[i]);
      assert !Kept(log, cutoff, j);
    } else {
      forall after, i | 0 <= i < |log| && after > 0 && !ResetRequired(pruned, after) && !Kept(log, cutoff, i)
        ensures log[i].cursor <= after
      {
        assert pruned != [] && pruned[0] in log;
        var k :| 0 <= k < |log| && log[k] == pruned[0];
        assert i < k;
      }
    }
  }

  /** At the level of rows, no run of retention removes a row after an accepted cursor exactly when
      cursors follow time among the rows that the row limit keeps. */
  lemma RemovalNeverAfterCursorsIff(log: seq<Event>)
    requires Ascending(log)
    ensures (forall cutoff :: RemovesNothingAfterCursors(log, cutoff)) <==> RecentlyChronological(log)
  {
    if RecentlyChronological(log) {
      forall cutoff ensures RemovesNothingAfterCursors(log, cutoff) {
        RemovalIffExpiredFollowsKept(log, cutoff);
      }
    } else {
      var i, j :| 0 <= i < j < |log| && log[i].cursor > Latest(log) - EVENT_RETENTION_ROWS
                  && log[i].occurredAt > log[j].occurredAt;
      RemovalIffExpiredFollowsKept(log, log[i].occurredAt);
      assert Expired(log, log[j], log[i].occurredAt) && !Expired(log, log[i], log[i].occurredAt);
      assert !RemovesNothingAfterCursors(log, log[i].occurredAt);
    }
  }

  /** An old-stamped row that was logged late goes without a reset, and no later window shows it. */
  lemma LateRowIsRemovedUnnoticed(first: Event, second: Event, third: Event, pruned: int)
    requires 0 < first.cursor < second.cursor < third.cursor && third.cursor - first.cursor < EVENT_RETENTION_ROWS
    requires var cutoff := pruned - EVENT_RETENTION_MILLIS;
             second.occurredAt < cutoff <= first.occurredAt && cutoff <= third.occurredAt
    ensures var log := Pruned([first, second, third], pruned - EVENT_RETENTION_MILLIS);
            log == [first, third] && !ResetRequired(log, first.cursor) && second.cursor > first.cursor
    ensures forall now, range, project :: now >= pruned ==> !Matches(second, Requested(now, range, project))
  {
    var log := [first, second, third];
    PruneFilters(log, pruned - EVENT_RETENTION_MILLIS);
    SameRowsSameLog(Pruned(log, pruned - EVENT_RETENTION_MILLIS), [first, third]);
  }

  /** The rows that go this way are rows nobody can ask for: after retention ran, no window shows a
      row that expired by time. */
  lemma ExpiredByTimeIsNeverServed(e: Event, pruned: int, now: int, range: Range, project: Option<string>)
    requires pruned <= now && e.occurredAt < pruned - EVENT_RETENTION_MILLIS
    ensures !Matches(e, Requested(now, range, project))
  {
  }
}

/** The versioned dashboard event log, read as a deduplicated feed and as a replay. */
module EventLog {
  import opened Options

  datatype Kind = AgentResponse | AgentUpdate | MessageDeleted | OtherKind

  /** A row of `dashboard_events`; rows with one `id` are versions of one event. */
  datatype Event = Event(cursor: int, id: string, kind: Kind, occurredAt: int, project: Option<string>)

  datatype Filter = Filter(since: int, project: Option<string>)

  /** The log in the order of its AUTOINCREMENT cursor. */
  ghost predicate Ascending(log: seq<Event>) {
    && (forall i, j :: 0 <= i < j < |log| ==> log[i].cursor < log[j].cursor)
    && (forall i :: 0 <= i < |log| ==> log[i].cursor > 0)
  }

  ghost predicate Descending(s: seq<Event>) {
    forall i, j :: 0 <= i < j < |s| ==> s[i].cursor > s[j].cursor
  }

  predicate Matches(e: Event, f: Filter) {
    e.occurredAt >= f.since && (f.project.None? || e.project == f.project)
  }

  function Keep(rows: seq<Event>, keep: Event -> bool): seq<Event> {
    if rows == [] then []
    else if keep(rows[|rows| - 1]) then Keep(rows[..|rows| - 1], keep) + [rows[|rows| - 1]]
    else Keep(rows[..|rows| - 1], keep)
  }

  lemma {:induction false} KeepFilters(rows: seq<Event>, keep: Event -> bool)
    requires Ascending(rows)
    ensures Ascending(Keep(rows, keep))
    ensures forall e :: e in Keep(rows, keep) <==> e in rows && keep(e)
  {
    if rows != [] {
      var init, last := rows[..|rows| - 1], rows[|rows| - 1];
      KeepFilters(init, keep);
      assert rows == init + [last];
      forall i | 0 <= i < |Keep(init, keep)| ensures Keep(init, keep)[i].cursor < last.cursor {
        assert Keep(init, keep)[i] in init;
      }
    }
  }

  lemma {:induction false} KeepShortens(rows: seq<Event>, keep: Event -> bool)
    ensures |Keep(rows, keep)| <= |rows|
  {
    if rows != [] {
      KeepShortens(rows[..|rows| - 1], keep);
    }
  }

  function Select(log: seq<Event>, f: Filter): seq<Event> {
    Keep(log, (e: Event) => Matches(e, f))
  }

  lemma SelectKeepsOrder(log: seq<Event>, f: Filter)
    requires Ascending(log)
    ensures Ascending(Select(log, f))
    ensures forall e :: e in Select(log, f) <==> e in log && Matches(e, f)
  {
    KeepFilters(log, (e: Event) => Matches(e, f));
  }

  function Clamp(x: int, low: int, high: int): int {
    if x < low then low else if x > high then high else x
  }

  // ---- Pages ----

  function FirstOf(found: seq<Event>, n: int): seq<Event>
    requires n > 0
  {
    if |found| > n then found[..n] else found
  }

  function RestOf(found: seq<Event>, n: int): seq<Event>
    requires n > 0
  {
    if |found| > n then found[n..] else []
  }

  /** A list cut into pages and put together again. */
  ghost function Chunks(found: seq<Event>, n: int, pages: nat): seq<Event>
    requires n > 0
    decreases pages
  {
    if found == [] || pages == 0 then FirstOf(found, n) else FirstOf(found, n) + Chunks(RestOf(found, n), n, pages - 1)
  }

  lemma {:induction false} ChunksAreTheList(found: seq<Event>, n: int, pages: nat)
    requires n > 0 && pages >= |found|
    ensures Chunks(found, n, pages) == found
    decreases pages
  {
    if found != [] {
      ChunksAreTheList(RestOf(found, n), n, pages - 1);
    }
  }

  lemma LastChunk(found: seq<Event>, n: int, pages: nat)
    requires n > 0 && |found| <= n
    ensures Chunks(found, n, pages) == found
  {
    if found != [] && pages > 0 {
      assert Chunks(RestOf(found, n), n, pages - 1) == [];
    }
  }

  // ---- The feed ----

  predicate FeedKind(e: Event) {
    !e.kind.OtherKind?
  }

  /** The first of its versions by descending cursor (`row_number() = 1`). */
  predicate Newest(rows: seq<Event>, e: Event) {
    forall r | r in rows :: r.id == e.id ==> r.cursor <= e.cursor
  }

  /** The newest versions of feed kinds among the first k rows, newest first. */
  function FeedRows(rows: seq<Event>, k: nat): seq<Event>
    requires k <= |rows|
  {
    if k == 0 then []
    else if Newest(rows, rows[k - 1]) && FeedKind(rows[k - 1]) then [rows[k - 1]] + FeedRows(rows, k - 1)
    else FeedRows(rows, k - 1)
  }

  function WholeFeed(log: seq<Event>, f: Filter): seq<Event> {
    FeedRows(Select(log, f), |Select(log, f)|)
  }

  function Below(s: seq<Event>, before: Option<int>): seq<Event> {
    if s == [] then []
    else if before.None? || s[0].cursor < before.value then [s[0]] + Below(s[1..], before)
    else Below(s[1..], before)
  }

  datatype FeedPage = FeedPage(events: seq<Event>, nextBefore: Option<int>, hasMore: bool)

  /** `feed`: fetch one row more than asked for to learn whether there are more. */
  function Feed(log: seq<Event>, f: Filter, before: Option<int>, limit: int): FeedPage {
    PageOf(Below(WholeFeed(log, f), before), Clamp(limit, 1, 100))
  }

  function PageOf(found: seq<Event>, n: int): FeedPage
    requires n > 0
  {
    var fetched := if |found| > n + 1 then found[..n + 1] else found;
    var hasMore := |fetched| > n;
    var events := if hasMore then fetched[..|fetched| - 1] else fetched;
    FeedPage(events, if events == [] then None else Some(events[|events| - 1].cursor), hasMore)
  }

  lemma {:induction false} FeedRowsMembers(rows: seq<Event>, k: nat, e: Event)
    requires k <= |rows|
    ensures e in FeedRows(rows, k) <==> e in rows[..k] && Newest(rows, e) && FeedKind(e)
  {
    if k > 0 {
      FeedRowsMembers(rows, k - 1, e);
      assert rows[..k] == rows[..k - 1] + [rows[k - 1]];
    }
  }

  lemma {:induction false} FeedRowsAreNewest(rows: seq<Event>, k: nat)
    requires Ascending(rows) && k <= |rows|
    ensures Descending(FeedRows(rows, k))
    ensures forall e :: e in FeedRows(rows, k) <==> e in rows[..k] && Newest(rows, e) && FeedKind(e)
  {
    forall e ensures e in FeedRows(rows, k) <==> e in rows[..k] && Newest(rows, e) && FeedKind(e) {
      FeedRowsMembers(rows, k, e);
    }
    if k > 0 {
      FeedRowsAreNewest(rows, k - 1);
      var older := FeedRows(rows, k - 1);
      forall i | 0 <= i < |older| ensures older[i].cursor < rows[k - 1].cursor {
        assert older[i] in rows[..k - 1];
      }
    }
  }

  lemma {:induction false} BelowFirst(s: seq<Event>, c: int)
    requires Descending(s) && forall i :: 0 <= i < |s| ==> s[i].cursor < c
    ensures Below(s, Some(c)) == s
  {
    if s != [] {
      BelowFirst(s[1..], c);
    }
  }

  /** In a descending list, "before the j-th cursor" is everything after position j. */
  lemma {:induction false} BelowCursor(s: seq<Event>, j: nat)
    requires Descending(s) && j < |s|
    ensures Below(s, Some(s[j].cursor)) == s[j + 1..]
    decreases j
  {
    if j == 0 {
      BelowFirst(s[1..], s[0].cursor);
    } else {
      BelowCursor(s[1..], j - 1);
    }
  }

  lemma {:induction false} BelowIsSuffix(s: seq<Event>, before: Option<int>) returns (i: nat)
    requires Descending(s)
    ensures i <= |s| && Below(s, before) == s[i..]
  {
    if s == [] {
      i := 0;
    } else if before.None? {
      i := 0;
      BelowNone(s);
    } else if s[0].cursor < before.value {
      i := 0;
      BelowFirst(s, before.value);
    } else {
      i := BelowIsSuffix(s[1..], before);
      i := i + 1;
    }
  }

  lemma {:induction false} BelowNone(s: seq<Event>)
    ensures Below(s, None) == s
  {
    if s != [] {
      BelowNone(s[1..]);
    }
  }

  /** What a client has after following `nextBefore` until there is no more, page by page. */
  function FeedPages(log: seq<Event>, f: Filter, before: Option<int>, limit: int, pages: nat): seq<Event>
    decreases pages
  {
    var page := Feed(log, f, before, limit);
    if !page.hasMore || pages == 0 then page.events
    else page.events + FeedPages(log, f, page.nextBefore, limit, pages - 1)
  }

  lemma PageOfFound(found: seq<Event>, n: int)
    requires n > 0
    ensures var page := PageOf(found, n);
            if |found| > n then page == FeedPage(found[..n], Some(found[n - 1].cursor), true)
            else page.events == found && !page.hasMore
  {
    if |found| > n {
      assert found[..n + 1][..n] == found[..n];
    }
  }

  /** Paging through any list. */
  ghost function Collected(whole: seq<Event>, before: Option<int>, n: int, pages: nat): seq<Event>
    requires n > 0
    decreases pages
  {
    var page := PageOf(Below(whole, before), n);
    if !page.hasMore || pages == 0 then page.events else page.events + Collected(whole, page.nextBefore, n, pages - 1)
  }

  lemma {:induction false} FeedPagesCollect(log: seq<Event>, f: Filter, before: Option<int>, limit: int, pages: nat)
    ensures FeedPages(log, f, before, limit, pages) == Collected(WholeFeed(log, f), before, Clamp(limit, 1, 100), pages)
    decreases pages
  {
    if pages > 0 {
      FeedPagesCollect(log, f, Feed(log, f, before, limit).nextBefore, limit, pages - 1);
    }
  }

  /** Asking for what lies before the k-th found row finds the rest. */
  lemma NextBelow(whole: seq<Event>, before: Option<int>, k: nat)
    requires Descending(whole) && k < |Below(whole, before)|
    ensures Below(whole, Some(Below(whole, before)[k].cursor)) == Below(whole, before)[k + 1..]
  {
    var i := BelowIsSuffix(whole, before);
    BelowCursor(whole, i + k);
  }

  lemma {:induction false} CollectedIsChunks(whole: seq<Event>, before: Option<int>, n: int, pages: nat)
    requires n > 0 && Descending(whole)
    ensures Collected(whole, before, n, pages) == Chunks(Below(whole, before), n, pages)
    decreases pages
  {
    var found := Below(whole, before);
    PageOfFound(found, n);
    if |found| <= n {
      LastChunk(found, n, pages);
    } else if pages > 0 {
      NextBelow(whole, before, n - 1);
      CollectedIsChunks(whole, Some(found[n - 1].cursor), n, pages - 1);
    }
  }

  /** Feed pages concatenate to the whole feed: every newest version of a feed kind, newest first. */
  lemma FeedPagesAreTheFeed(log: seq<Event>, f: Filter, limit: int, pages: nat)
    requires Ascending(log) && pages >= |WholeFeed(log, f)|
    ensures FeedPages(log, f, None, limit, pages) == WholeFeed(log, f)
  {
    SelectKeepsOrder(log, f);
    FeedRowsAreNewest(Select(log, f), |Select(log, f)|);
    BelowNone(WholeFeed(log, f));
    FeedPagesCollect(log, f, None, limit, pages);
    CollectedIsChunks(WholeFeed(log, f), None, Clamp(limit, 1, 100), pages);
    ChunksAreTheList(WholeFeed(log, f), Clamp(limit, 1, 100), pages);
  }

  // ---- The replay ----

  function Oldest(log: seq<Event>): int { if log == [] then 0 else log[0].cursor }

  function Latest(log: seq<Event>): int { if log == [] then 0 else log[|log| - 1].cursor }

  predicate ResetRequired(log: seq<Event>, after: int) {
    after > 0 && (after > Latest(log) || (Oldest(log) > 0 && after < Oldest(log) - 1))
  }

  function Above(s: seq<Event>, after: int): seq<Event> {
    if s == [] then []
    else if s[0].cursor > after then [s[0]] + Above(s[1..], after)
    else Above(s[1..], after)
  }

  datatype Replay = Replay(events: seq<Event>, latestCursor: int, resetRequired: bool)

  /** `replay_after`: every version after a cursor, oldest first. */
  function ReplayAfter(log: seq<Event>, f: Filter, after: int, limit: int): Replay {
    if ResetRequired(log, after) then Replay([], Latest(log), true)
    else
      Replay(FirstOf(Above(Select(log, f), after), Clamp(limit, 1, 250)), Latest(log), false)
  }

  lemma {:induction false} AboveAll(s: seq<Event>, c: int)
    requires forall i :: 0 <= i < |s| ==> s[i].cursor > c
    ensures Above(s, c) == s
  {
    if s != [] {
      AboveAll(s[1..], c);
    }
  }

  lemma {:induction false} AboveCursor(s: seq<Event>, j: nat)
    requires Ascending(s) && j < |s|
    ensures Above(s, s[j].cursor) == s[j + 1..]
    decreases j
  {
    if j == 0 {
      AboveAll(s[1..], s[0].cursor);
    } else {
      AboveCursor(s[1..], j - 1);
    }
  }

  /** What a client has after advancing by the last cursor until nothing is left. */
  function ReplayPages(log: seq<Event>, f: Filter, after: int, limit: int, pages: nat): seq<Event>
    decreases pages
  {
    var page := ReplayAfter(log, f, after, limit);
    if page.events == [] || pages == 0 then page.events
    else page.events + ReplayPages(log, f, page.events[|page.events| - 1].cursor, limit, pages - 1)
  }

  lemma NoResetAtLoggedCursor(log: seq<Event>, e: Event)
    requires Ascending(log) && e in log
    ensures !ResetRequired(log, e.cursor)
  {
  }

  lemma {:induction false} AboveIsPart(s: seq<Event>, after: int, e: Event)
    requires e in Above(s, after)
    ensures e in s && e.cursor > after
  {
    if s[0].cursor <= after || e != s[0] {
      AboveIsPart(s[1..], after, e);
    }
  }

  lemma {:induction false} AboveIsSuffix(s: seq<Event>, after: int) returns (i: nat)
    requires Ascending(s)
    ensures i <= |s| && Above(s, after) == s[i..]
  {
    if s == [] {
      i := 0;
    } else if s[0].cursor > after {
      i := 0;
      AboveAll(s, after);
    } else {
      i := AboveIsSuffix(s[1..], after);
      i := i + 1;
    }
  }

  lemma AboveKeepsOrder(s: seq<Event>, after: int)
    requires Ascending(s)
    ensures Ascending(Above(s, after))
    ensures forall e :: e in Above(s, after) <==> e in s && e.cursor > after
  {
    var i := AboveIsSuffix(s, after);
    forall e | e in s && e.cursor > after ensures e in Above(s, after) {
      AboveHolds(s, after, e);
    }
    forall e | e in Above(s, after) ensures e in s && e.cursor > after {
      AboveIsPart(s, after, e);
    }
  }

  lemma {:induction false} AboveHolds(s: seq<Event>, after: int, e: Event)
    requires e in s && e.cursor > after
    ensures e in Above(s, after)
  {
    if e != s[0] {
      AboveHolds(s[1..], after, e);
    }
  }

  /** Asking for what follows the k-th found row finds the rest. */
  lemma NextAbove(rows: seq<Event>, after: int, k: nat)
    requires Ascending(rows) && k < |Above(rows, after)|
    ensures Above(rows, Above(rows, after)[k].cursor) == Above(rows, after)[k + 1..]
  {
    var i := AboveIsSuffix(rows, after);
    AboveCursor(rows, i + k);
  }

  /** The replay of a fixed list, page after page. */
  ghost function Advanced(rows: seq<Event>, after: int, n: int, pages: nat): seq<Event>
    requires n > 0
    decreases pages
  {
    var page := FirstOf(Above(rows, after), n);
    if page == [] || pages == 0 then page else page + Advanced(rows, page[|page| - 1].cursor, n, pages - 1)
  }

  /** A client that advances by cursors it was given is never told to reset. */
  lemma {:induction false} ReplayPagesAdvance(log: seq<Event>, f: Filter, rows: seq<Event>, after: int, limit: int,
                                              pages: nat)
    requires Ascending(log) && rows == Select(log, f) && (forall e :: e in rows ==> e in log)
    requires !ResetRequired(log, after)
    ensures ReplayPages(log, f, after, limit, pages) == Advanced(rows, after, Clamp(limit, 1, 250), pages)
    decreases pages
  {
    var page := FirstOf(Above(rows, after), Clamp(limit, 1, 250));
    if page != [] && pages > 0 {
      var last := page[|page| - 1];
      AboveIsPart(rows, after, last);
      NoResetAtLoggedCursor(log, last);
      ReplayPagesAdvance(log, f, rows, last.cursor, limit, pages - 1);
    }
  }

  /** A page is followed by what its last cursor finds. */
  lemma NextPage(rows: seq<Event>, after: int, n: int, pages: nat, found: seq<Event>) returns (next: int)
    requires n > 0 && pages > 0 && Ascending(rows) && found == Above(rows, after) && found != []
    ensures Above(rows, next) == RestOf(found, n)
    ensures Advanced(rows, after, n, pages) == FirstOf(found, n) + Advanced(rows, next, n, pages - 1)
  {
    var k := |FirstOf(found, n)| - 1;
    next := found[k].cursor;
    NextAbove(rows, after, k);
  }

  lemma {:induction false} AdvancedIsChunks(rows: seq<Event>, after: int, n: int, pages: nat, found: seq<Event>)
    requires n > 0 && Ascending(rows) && found == Above(rows, after)
    ensures Advanced(rows, after, n, pages) == Chunks(found, n, pages)
    decreases pages
  {
    if found == [] || pages == 0 {
      OnlyPage(rows, after, n, pages);
    } else {
      var next := NextPage(rows, after, n, pages, found);
      AdvancedIsChunks(rows, next, n, pages - 1, RestOf(found, n));
      FirstChunk(found, n, pages);
    }
  }

  lemma OnlyPage(rows: seq<Event>, after: int, n: int, pages: nat)
    requires n > 0 && (Above(rows, after) == [] || pages == 0)
    ensures Advanced(rows, after, n, pages) == Chunks(Above(rows, after), n, pages)
  {
  }

  lemma FirstChunk(found: seq<Event>, n: int, pages: nat)
    requires n > 0 && found != [] && pages > 0
    ensures Chunks(found, n, pages) == FirstOf(found, n) + Chunks(RestOf(found, n), n, pages - 1)
  {
  }

  /** Paging by the last cursor yields each matching row once, in order, and never resets; from an
      accepted cursor it yields the rows after it. */
  lemma ReplayPagesFrom(log: seq<Event>, f: Filter, after: int, limit: int, pages: nat)
    requires Ascending(log) && pages >= |Select(log, f)| && !ResetRequired(log, after)
    ensures ReplayPages(log, f, after, limit, pages) == Above(Select(log, f), after)
  {
    SelectKeepsOrder(log, f);
    ReplayPagesAdvance(log, f, Select(log, f), after, limit, pages);
    AdvancedIsChunks(Select(log, f), after, Clamp(limit, 1, 250), pages, Above(Select(log, f), after));
    AboveShortens(Select(log, f), after);
    ChunksAreTheList(Above(Select(log, f), after), Clamp(limit, 1, 250), pages);
  }

  lemma AboveShortens(s: seq<Event>, after: int)
    requires Ascending(s)
    ensures |Above(s, after)| <= |s|
  {
    var i := AboveIsSuffix(s, after);
  }

  lemma ReplayPagesAreTheLog(log: seq<Event>, f: Filter, limit: int, pages: nat)
    requires Ascending(log) && pages >= |Select(log, f)|
    ensures ReplayPages(log, f, 0, limit, pages) == Select(log, f)
  {
    SelectKeepsOrder(log, f);
    AboveAll(Select(log, f), 0);
    ReplayPagesFrom(log, f, 0, limit, pages);
  }

  // ---- Feed and replay agree ----

  /** The client's view: the last row written for each event id. */
  function LastWriteWins(rows: seq<Event>): map<string, Event> {
    if rows == [] then map[] else LastWriteWins(rows[..|rows| - 1])[rows[|rows| - 1].id := rows[|rows| - 1]]
  }

  lemma NewestOfAppend(init: seq<Event>, last: Event, e: Event)
    requires forall r :: r in init ==> r.cursor < last.cursor
    ensures e in init + [last] && Newest(init + [last], e) <==>
            e == last || (e.id != last.id && e in init && Newest(init, e))
  {
  }

  lemma {:induction false} FoldKeepsNewest(rows: seq<Event>, e: Event)
    requires Ascending(rows)
    ensures e in rows && Newest(rows, e) <==> e.id in LastWriteWins(rows) && LastWriteWins(rows)[e.id] == e
  {
    if rows != [] {
      var init, last := rows[..|rows| - 1], rows[|rows| - 1];
      FoldKeepsNewest(init, e);
      NewestOfAppend(init, last, e);
      assert rows == init + [last];
    }
  }

  /** Replaying everything and keeping the last version of feed kinds shows exactly the feed. */
  lemma FeedEqualsFoldedReplay(log: seq<Event>, f: Filter, feedLimit: int, replayLimit: int, pages: nat, e: Event)
    requires Ascending(log) && pages >= |log|
    ensures var view := LastWriteWins(ReplayPages(log, f, 0, replayLimit, pages));
            e in FeedPages(log, f, None, feedLimit, pages) <==> e.id in view && view[e.id] == e && FeedKind(e)
    ensures Descending(FeedPages(log, f, None, feedLimit, pages))
  {
    var rows := Select(log, f);
    SelectKeepsOrder(log, f);
    KeepShortens(log, (e: Event) => Matches(e, f));
    FeedRowsShorten(rows, |rows|);
    FeedPagesAreTheFeed(log, f, feedLimit, pages);
    ReplayPagesAreTheLog(log, f, replayLimit, pages);
    FeedRowsAreNewest(rows, |rows|);
    FoldKeepsNewest(rows, e);
    assert rows[..|rows|] == rows;
  }

  lemma {:induction false} FeedRowsShorten(rows: seq<Event>, k: nat)
    requires k <= |rows|
    ensures |FeedRows(rows, k)| <= k
  {
    if k > 0 {
      FeedRowsShorten(rows, k - 1);
    }
  }

  // ---- What clients are served ----

  /** Paging a replay serves exactly the events after the cursor that happened in the window, in the
      Project asked for if one was. */
  lemma ReplayServes(log: seq<Event>, f: Filter, after: int, limit: int, pages: nat, e: Event)
    requires Ascending(log) && pages >= |Select(log, f)| && !ResetRequired(log, after)
    ensures e in ReplayPages(log, f, after, limit, pages) <==>
            && e in log && e.cursor > after && e.occurredAt >= f.since
            && (f.project.None? || e.project == f.project)
  {
    SelectKeepsOrder(log, f);
    AboveKeepsOrder(Select(log, f), after);
    ReplayPagesFrom(log, f, after, limit, pages);
  }

  /** Paging the feed serves exactly the responses, updates and deletions of the window and Project that
      no later version in that window and Project replaces, each with a lower cursor than the one before. */
  lemma FeedServes(log: seq<Event>, f: Filter, limit: int, pages: nat, e: Event)
    requires Ascending(log) && pages >= |WholeFeed(log, f)|
    ensures e in FeedPages(log, f, None, limit, pages) <==>
            && e in log && e.occurredAt >= f.since && (f.project.None? || e.project == f.project)
            && (e.kind == AgentResponse || e.kind == AgentUpdate || e.kind == MessageDeleted)
            && (forall r :: r in log && r.id == e.id ==>
                  r.occurredAt < f.since || (f.project.Some? && r.project != f.project) || r.cursor <= e.cursor)
    ensures Descending(FeedPages(log, f, None, limit, pages))
  {
    var rows := Select(log, f);
    SelectKeepsOrder(log, f);
    FeedRowsAreNewest(rows, |rows|);
    assert rows[..|rows|] == rows;
    FeedPagesAreTheFeed(log, f, limit, pages);
  }

  /** One page: at least one and at most 100 events are asked for, and given if there are as many; more
      is announced iff something is left, and the next page starts below the last event. */
  lemma FeedPageIs(log: seq<Event>, f: Filter, before: Option<int>, limit: int)
    ensures var page, found := Feed(log, f, before, limit), Below(WholeFeed(log, f), before);
            var n := if limit < 1 then 1 else if limit > 100 then 100 else limit;
            && page.events == (if |found| > n then found[..n] else found)
            && (page.hasMore <==> |found| > n)
            && page.nextBefore ==
               (if page.events == [] then None else Some(page.events[|page.events| - 1].cursor))
  {
    PageOfFound(Below(WholeFeed(log, f), before), Clamp(limit, 1, 100));
  }

  /** One replay page: at least one and at most 250 events are asked for, unless the cursor is stale. */
  lemma ReplayPageIs(log: seq<Event>, f: Filter, after: int, limit: int)
    ensures var page, found := ReplayAfter(log, f, after, limit), Above(Select(log, f), after);
            var n := if limit < 1 then 1 else if limit > 250 then 250 else limit;
            && (page.resetRequired <==>
                && after > 0 && (log == [] || after > log[|log| - 1].cursor
                                 || (log[0].cursor > 0 && after < log[0].cursor - 1)))
            && (!page.resetRequired ==> page.events == (if |found| > n then found[..n] else found))
            && (page.resetRequired ==> page.events == [])
            && page.latestCursor == (if log == [] then 0 else log[|log| - 1].cursor)
  {
  }
}

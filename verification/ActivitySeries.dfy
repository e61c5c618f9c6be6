/** Control-center activity: cumulative Git samples read as charted additions and deletions. */
module ActivitySeries {
  import opened Options

  type Work = string
  /** Milliseconds since the epoch. */
  type Time = int

  /** A cumulative count of changed lines relative to the work's baseline. */
  datatype Code = Code(additions: nat, deletions: nat)

  const NOTHING := Code(0, 0)

  /** A row of `dashboard_metric_points`; `code` is present when both counters are. */
  datatype Row = Row(work: Work, at: Time, project: Option<string>, toolCalls: nat, code: Option<Code>)

  /** The table in the order of the query: by time, then by work. */
  ghost predicate Ordered(table: seq<Row>) {
    && (forall i, j :: 0 <= i < j < |table| ==> table[i].at <= table[j].at)
    && (forall i, j :: 0 <= i < j < |table| ==> table[i].at < table[j].at || table[i].work != table[j].work)
  }

  // ---- Queries ----

  predicate Matches(row: Row, project: Option<string>) {
    project.None? || row.project == project
  }

  function Window(table: seq<Row>, since: Time, project: Option<string>): seq<Row> {
    if table == [] then []
    else
      var last := table[|table| - 1];
      var rest := Window(table[..|table| - 1], since, project);
      if last.at >= since && Matches(last, project) then rest + [last] else rest
  }

  /** The latest counted row of each work before the window, kept when it matches the filter. */
  function Seed(table: seq<Row>, since: Time, project: Option<string>): map<Work, Code> {
    if table == [] then map[]
    else
      var last := table[|table| - 1];
      var rest := Seed(table[..|table| - 1], since, project);
      if last.at >= since || last.code.None? then rest
      else if Matches(last, project) then rest[last.work := last.code.value]
      else rest - {last.work}
  }

  // ---- What one sample adds to the chart ----

  function Positive(x: int): nat {
    if x > 0 then x else 0
  }

  /** Grown additions, plus deletions that were restored. */
  function Added(previous: Code, current: Code): nat {
    Positive(current.additions - previous.additions) + Positive(previous.deletions - current.deletions)
  }

  /** Grown deletions, plus additions that were reverted. */
  function Deleted(previous: Code, current: Code): nat {
    Positive(current.deletions - previous.deletions) + Positive(previous.additions - current.additions)
  }

  function Previous(seen: map<Work, Code>, work: Work): Code {
    if work in seen then seen[work] else NOTHING
  }

  function Seen(rows: seq<Row>, seed: map<Work, Code>): map<Work, Code> {
    if rows == [] then seed
    else
      var last := rows[|rows| - 1];
      var before := Seen(rows[..|rows| - 1], seed);
      if last.code.Some? then before[last.work := last.code.value] else before
  }

  function BucketIndex(at: Time, width: int): int
    requires width > 0
  {
    at / 1000 / width
  }

  /** Activity of the rows that fall in the i-th bucket, or of all rows for `None`. */
  datatype Activity = Activity(toolCalls: nat, additions: nat, deletions: nat)

  function Plus(a: Activity, b: Activity): Activity {
    Activity(a.toolCalls + b.toolCalls, a.additions + b.additions, a.deletions + b.deletions)
  }

  function RowActivity(row: Row, seen: map<Work, Code>): Activity {
    if row.code.None? then Activity(row.toolCalls, 0, 0)
    else
      var previous := Previous(seen, row.work);
      Activity(row.toolCalls, Added(previous, row.code.value), Deleted(previous, row.code.value))
  }

  ghost function InBucket(rows: seq<Row>, seed: map<Work, Code>, width: int, i: int): Activity
    requires width > 0
  {
    if rows == [] then Activity(0, 0, 0)
    else
      var last, init := rows[|rows| - 1], rows[..|rows| - 1];
      var before := InBucket(init, seed, width, i);
      if BucketIndex(last.at, width) == i then Plus(before, RowActivity(last, Seen(init, seed))) else before
  }

  ghost function Total(rows: seq<Row>, seed: map<Work, Code>): Activity {
    if rows == [] then Activity(0, 0, 0)
    else
      var last, init := rows[|rows| - 1], rows[..|rows| - 1];
      Plus(Total(init, seed), RowActivity(last, Seen(init, seed)))
  }

  // ---- Buckets partition the total ----

  ghost function SumOfBuckets(rows: seq<Row>, seed: map<Work, Code>, width: int, first: int, last: int): Activity
    requires width > 0
    decreases last - first
  {
    if first > last then Activity(0, 0, 0)
    else Plus(SumOfBuckets(rows, seed, width, first, last - 1), InBucket(rows, seed, width, last))
  }

  lemma {:induction false} SumOfEmptyBuckets(rows: seq<Row>, seed: map<Work, Code>, width: int, first: int, last: int)
    requires width > 0 && |rows| == 0
    ensures SumOfBuckets(rows, seed, width, first, last) == Activity(0, 0, 0)
    decreases last - first
  {
    if first <= last {
      SumOfEmptyBuckets(rows, seed, width, first, last - 1);
    }
  }

  lemma {:induction false} SumOfBucketsStep(rows: seq<Row>, seed: map<Work, Code>, width: int, first: int, last: int)
    requires width > 0 && rows != []
    ensures var row, init := rows[|rows| - 1], rows[..|rows| - 1];
            SumOfBuckets(rows, seed, width, first, last) ==
            if first <= BucketIndex(row.at, width) <= last
            then Plus(SumOfBuckets(init, seed, width, first, last), RowActivity(row, Seen(init, seed)))
            else SumOfBuckets(init, seed, width, first, last)
    decreases last - first
  {
    if first <= last {
      SumOfBucketsStep(rows, seed, width, first, last - 1);
    }
  }

  ghost predicate AllWithin(rows: seq<Row>, width: int, first: int, last: int)
    requires width > 0
  {
    forall k :: 0 <= k < |rows| ==> first <= BucketIndex(rows[k].at, width) <= last
  }

  /** Whatever the bucket width, the buckets together hold exactly the total. */
  lemma {:induction false} BucketsSumToTotal(rows: seq<Row>, seed: map<Work, Code>, width: int, first: int, last: int)
    requires width > 0 && AllWithin(rows, width, first, last)
    ensures SumOfBuckets(rows, seed, width, first, last) == Total(rows, seed)
  {
    if rows == [] {
      SumOfEmptyBuckets(rows, seed, width, first, last);
    } else {
      BucketsSumToTotal(rows[..|rows| - 1], seed, width, first, last);
      SumOfBucketsStep(rows, seed, width, first, last);
    }
  }

  lemma SameWindowAnyWidth(rows: seq<Row>, seed: map<Work, Code>, width: int, first: int, last: int, width': int,
                           first': int, last': int)
    requires width > 0 && AllWithin(rows, width, first, last)
    requires width' > 0 && AllWithin(rows, width', first', last')
    ensures SumOfBuckets(rows, seed, width, first, last) == SumOfBuckets(rows, seed, width', first', last')
  {
    BucketsSumToTotal(rows, seed, width, first, last);
    BucketsSumToTotal(rows, seed, width', first', last');
  }

  lemma DivMonotone(a: int, b: int, d: int)
    requires a <= b && d > 0
    ensures a / d <= b / d
  {
    Ordering(b / d + 1, a / d, d);
    assert (a / d) * d <= a && b < (b / d + 1) * d;
  }

  lemma Ordering(i: int, j: int, width: int)
    requires width > 0
    ensures i * width <= j * width <==> i <= j
  {
  }

  /** Rows between the window start and now fall between the first and the last bucket. */
  lemma RowsFallInTheWindow(rows: seq<Row>, since: Time, now: Time, width: int)
    requires width > 0
    requires forall k :: 0 <= k < |rows| ==> since <= rows[k].at <= now
    ensures AllWithin(rows, width, BucketIndex(since, width), BucketIndex(now, width))
  {
    forall k | 0 <= k < |rows|
      ensures BucketIndex(since, width) <= BucketIndex(rows[k].at, width) <= BucketIndex(now, width) {
      DivMonotone(since, rows[k].at, 1000);
      DivMonotone(rows[k].at, now, 1000);
      DivMonotone(since / 1000, rows[k].at / 1000, width);
      DivMonotone(rows[k].at / 1000, now / 1000, width);
    }
  }

  // ---- What the totals mean ----

  ghost function Net(c: Code): int {
    c.additions - c.deletions
  }

  ghost function NetSum(m: map<Work, Code>): int {
    if m.Keys == {} then 0
    else
      var w :| w in m.Keys;
      Net(m[w]) + NetSum(m - {w})
  }

  lemma {:induction false} NetSumRemove(m: map<Work, Code>, w: Work)
    requires w in m
    ensures NetSum(m) == Net(m[w]) + NetSum(m - {w})
    decreases |m.Keys|
  {
    var v :| v in m.Keys && NetSum(m) == Net(m[v]) + NetSum(m - {v});
    if v != w {
      NetSumRemove(m - {v}, w);
      NetSumRemove(m - {w}, v);
      assert (m - {v}) - {w} == (m - {w}) - {v};
    }
  }

  lemma NetSumUpdate(m: map<Work, Code>, w: Work, c: Code)
    ensures NetSum(m[w := c]) == NetSum(m) - Net(Previous(m, w)) + Net(c)
  {
    NetSumRemove(m[w := c], w);
    if w in m {
      NetSumRemove(m, w);
      assert m[w := c] - {w} == m - {w};
    } else {
      assert m[w := c] - {w} == m;
    }
  }

  lemma AddedMinusDeleted(previous: Code, current: Code)
    ensures Added(previous, current) - Deleted(previous, current) == Net(current) - Net(previous)
  {
  }

  lemma RowNetChange(row: Row, seen: map<Work, Code>)
    ensures var after := if row.code.Some? then seen[row.work := row.code.value] else seen;
            RowActivity(row, seen).additions - RowActivity(row, seen).deletions == NetSum(after) - NetSum(seen)
  {
    if row.code.Some? {
      AddedMinusDeleted(Previous(seen, row.work), row.code.value);
      NetSumUpdate(seen, row.work, row.code.value);
    }
  }

  /** Charted additions minus deletions are the summed net change of every work from its seed to
      its last sample. */
  lemma {:induction false} TotalIsNetChange(rows: seq<Row>, seed: map<Work, Code>)
    ensures Total(rows, seed).additions - Total(rows, seed).deletions == NetSum(Seen(rows, seed)) - NetSum(seed)
  {
    if rows != [] {
      TotalIsNetChange(rows[..|rows| - 1], seed);
      RowNetChange(rows[|rows| - 1], Seen(rows[..|rows| - 1], seed));
    }
  }

  ghost function Distance(x: int, y: int): nat {
    if x <= y then y - x else x - y
  }

  /** The length of the path the samples trace, in added and deleted lines. */
  ghost function Variation(rows: seq<Row>, seed: map<Work, Code>): nat {
    if rows == [] then 0
    else
      var last, init := rows[|rows| - 1], rows[..|rows| - 1];
      var previous := Previous(Seen(init, seed), last.work);
      Variation(init, seed) +
      (if last.code.None? then 0
       else
         Distance(previous.additions, last.code.value.additions) +
         Distance(previous.deletions, last.code.value.deletions))
  }

  /** Charted additions plus deletions are the total variation of the sample path. */
  lemma {:induction false} TotalIsVariation(rows: seq<Row>, seed: map<Work, Code>)
    ensures Total(rows, seed).additions + Total(rows, seed).deletions == Variation(rows, seed)
  {
    if rows != [] {
      TotalIsVariation(rows[..|rows| - 1], seed);
    }
  }

  // ---- Adjacent windows ----

  lemma {:induction false} SeenSplits(a: seq<Row>, b: seq<Row>, seed: map<Work, Code>)
    ensures Seen(a + b, seed) == Seen(b, Seen(a, seed))
    decreases |b|
  {
    if b == [] {
      assert a + b == a;
    } else {
      assert (a + b)[..|a + b| - 1] == a + b[..|b| - 1];
      SeenSplits(a, b[..|b| - 1], seed);
    }
  }

  ghost function Activities(rows: seq<Row>, seed: map<Work, Code>): seq<Activity> {
    if rows == [] then []
    else
      var last, init := rows[|rows| - 1], rows[..|rows| - 1];
      Activities(init, seed) + [RowActivity(last, Seen(init, seed))]
  }

  ghost function Sum(activities: seq<Activity>): Activity {
    if activities == [] then Activity(0, 0, 0)
    else Plus(Sum(activities[..|activities| - 1]), activities[|activities| - 1])
  }

  lemma {:induction false} SumSplits(a: seq<Activity>, b: seq<Activity>)
    ensures Sum(a + b) == Plus(Sum(a), Sum(b))
    decreases |b|
  {
    if b == [] {
      assert a + b == a;
    } else {
      assert (a + b)[..|a + b| - 1] == a + b[..|b| - 1];
      SumSplits(a, b[..|b| - 1]);
    }
  }

  lemma {:induction false} TotalIsSum(rows: seq<Row>, seed: map<Work, Code>)
    ensures Total(rows, seed) == Sum(Activities(rows, seed))
  {
    if rows != [] {
      var init := rows[..|rows| - 1];
      TotalIsSum(init, seed);
      var all := Activities(rows, seed);
      assert all[..|all| - 1] == Activities(init, seed);
    }
  }

  lemma {:induction false} ActivitiesSplit(a: seq<Row>, b: seq<Row>, seed: map<Work, Code>)
    ensures Activities(a + b, seed) == Activities(a, seed) + Activities(b, Seen(a, seed))
    decreases |b|
  {
    if b == [] {
      assert a + b == a;
    } else {
      var init := b[..|b| - 1];
      assert (a + b)[..|a + b| - 1] == a + init;
      ActivitiesSplit(a, init, seed);
      SeenSplits(a, init, seed);
    }
  }

  lemma TotalSplits(a: seq<Row>, b: seq<Row>, seed: map<Work, Code>)
    ensures Total(a + b, seed) == Plus(Total(a, seed), Total(b, Seen(a, seed)))
  {
    TotalIsSum(a + b, seed);
    TotalIsSum(a, seed);
    TotalIsSum(b, Seen(a, seed));
    ActivitiesSplit(a, b, seed);
    SumSplits(Activities(a, seed), Activities(b, Seen(a, seed)));
  }

  /** Rows from the first window's start up to the second one's. */
  ghost function Between(table: seq<Row>, since: Time, until: Time, project: Option<string>): seq<Row> {
    if table == [] then []
    else
      var last := table[|table| - 1];
      var rest := Between(table[..|table| - 1], since, until, project);
      if since <= last.at < until && Matches(last, project) then rest + [last] else rest
  }

  /** Either there is no Project filter, or the counted rows of each work share one Project. */
  ghost predicate StableProjects(table: seq<Row>, project: Option<string>) {
    project.Some? ==>
      forall i, j ::
        && 0 <= i < |table| && 0 <= j < |table| && table[i].work == table[j].work
        && table[i].code.Some? && table[j].code.Some?
        ==> table[i].project == table[j].project
  }

  lemma {:induction false} SeedNeedsMatch(table: seq<Row>, since: Time, project: Option<string>, w: Work)
    requires forall i :: 0 <= i < |table| && table[i].work == w && table[i].code.Some? ==> !Matches(table[i], project)
    ensures w !in Seed(table, since, project)
  {
    if table != [] {
      SeedNeedsMatch(table[..|table| - 1], since, project, w);
    }
  }

  /** The seed of a later window is what the rows in between leave of the earlier seed. */
  lemma {:induction false} SeedsChain(table: seq<Row>, since: Time, until: Time, project: Option<string>)
    requires Ordered(table) && since <= until && StableProjects(table, project)
    ensures Seed(table, until, project) == Seen(Between(table, since, until, project), Seed(table, since, project))
  {
    if table != [] {
      var init, last := table[..|table| - 1], table[|table| - 1];
      SeedsChain(init, since, until, project);
      var between := Between(init, since, until, project);
      if last.at < since {
        BetweenOfEarlier(init, since, until, project);
      } else if last.at < until && last.code.Some? {
        if Matches(last, project) {
          assert (between + [last])[..|between|] == between;
        } else {
          assert forall i :: 0 <= i < |init| ==> init[i] == table[i];
          SeedNeedsMatch(init, until, project, last.work);
        }
      } else if last.at < until && Matches(last, project) {
        assert (between + [last])[..|between|] == between;
      }
    }
  }

  lemma {:induction false} BetweenOfEarlier(table: seq<Row>, since: Time, until: Time, project: Option<string>)
    requires forall i :: 0 <= i < |table| ==> table[i].at < since
    ensures Between(table, since, until, project) == []
  {
    if table != [] {
      BetweenOfEarlier(table[..|table| - 1], since, until, project);
    }
  }

  lemma {:induction false} WindowSplits(table: seq<Row>, since: Time, until: Time, project: Option<string>)
    requires Ordered(table) && since <= until
    ensures Window(table, since, project) == Between(table, since, until, project) + Window(table, until, project)
  {
    if table != [] {
      var init, last := table[..|table| - 1], table[|table| - 1];
      WindowSplits(init, since, until, project);
      if last.at < until {
        WindowOfEarlier(init, until, project);
      }
    }
  }

  lemma {:induction false} WindowOfEarlier(table: seq<Row>, since: Time, project: Option<string>)
    requires forall i :: 0 <= i < |table| ==> table[i].at < since
    ensures Window(table, since, project) == []
  {
    if table != [] {
      WindowOfEarlier(table[..|table| - 1], since, project);
    }
  }

  ghost function WindowTotal(table: seq<Row>, since: Time, project: Option<string>): Activity {
    Total(Window(table, since, project), Seed(table, since, project))
  }

  /** The activity since the earlier start is the activity in between plus the activity since the later start. */
  ghost predicate AddsUp(table: seq<Row>, since: Time, until: Time, project: Option<string>) {
    WindowTotal(table, since, project) ==
    Plus(Total(Between(table, since, until, project), Seed(table, since, project)), WindowTotal(table, until, project))
  }

  /** Adjacent windows add up over samples that never change Project. */
  lemma AdjacentWindowsAddUp(table: seq<Row>, since: Time, until: Time, project: Option<string>)
    requires Ordered(table) && since <= until && StableProjects(table, project)
    ensures AddsUp(table, since, until, project)
  {
    WindowSplits(table, since, until, project);
    SeedsChain(table, since, until, project);
    TotalSplits(Between(table, since, until, project), Window(table, until, project), Seed(table, since, project));
  }

  lemma QueriesOfAppend(table: seq<Row>, row: Row, since: Time, until: Time, project: Option<string>)
    ensures Window(table + [row], since, project) ==
            if row.at >= since && Matches(row, project) then Window(table, since, project) + [row]
            else Window(table, since, project)
    ensures Between(table + [row], since, until, project) ==
            if since <= row.at < until && Matches(row, project) then Between(table, since, until, project) + [row]
            else Between(table, since, until, project)
    ensures Seed(table + [row], since, project) ==
            if row.at >= since || row.code.None? then Seed(table, since, project)
            else if Matches(row, project) then Seed(table, since, project)[row.work := row.code.value]
            else Seed(table, since, project) - {row.work}
  {
  }

  /** Additivity needs stable Projects: a work whose samples changed Project loses its seed under a
      Project filter, and its earlier lines are charted again. */
  lemma MovedWorkIsChartedTwice(table: seq<Row>, r1: Row, r2: Row, r3: Row, until: Time, p: Option<string>)
    requires r1.work == r2.work == r3.work && r1.code.Some? && r2.code.Some? && r3.code.Some?
    requires r1.at < r2.at < until <= r3.at && p.Some? && r1.project == r3.project == p && r2.project != p
    requires 0 < r1.code.value.additions <= r3.code.value.additions
             && r1.code.value.deletions <= r3.code.value.deletions
    requires table == [r1] + [r2] + [r3]
    ensures WindowTotal(table, r1.at, p).additions <
            Total(Between(table, r1.at, until, p), Seed(table, r1.at, p)).additions +
              WindowTotal(table, until, p).additions
  {
    QueriesFromFirst(r1, r2, r3, until, p);
    QueriesFromLast(r1, r2, r3, until, p);
    TotalOfOne(r1);
    TotalOfOne(r3);
    TotalOfTwo(r1, r3);
  }

  lemma TotalOfOne(row: Row)
    requires row.code.Some?
    ensures Total([row], map[]).additions == row.code.value.additions
            && Seen([row], map[]) == map[row.work := row.code.value]
  {
  }

  lemma TotalOfTwo(row: Row, next: Row)
    requires row.code.Some? && next.code.Some? && next.work == row.work
    ensures Total([row] + [next], map[]).additions == row.code.value.additions + Added(row.code.value, next.code.value)
  {
    TotalOfOne(row);
    assert ([row] + [next])[..1] == [row];
  }

  lemma QueriesFromFirst(r1: Row, r2: Row, r3: Row, until: Time, project: Option<string>)
    requires r1.at < r2.at < until <= r3.at && Matches(r1, project) && !Matches(r2, project) && Matches(r3, project)
    ensures var all := [r1] + [r2] + [r3];
            Window(all, r1.at, project) == [r1] + [r3] && Between(all, r1.at, until, project) == [r1]
              && Seed(all, r1.at, project) == map[]
  {
    var none: seq<Row> := [];
    assert none + [r1] == [r1];
    QueriesOfAppend(none, r1, r1.at, until, project);
    QueriesOfAppend([r1], r2, r1.at, until, project);
    QueriesOfAppend([r1] + [r2], r3, r1.at, until, project);
  }

  lemma QueriesFromLast(r1: Row, r2: Row, r3: Row, until: Time, project: Option<string>)
    requires r1.at < r2.at < until <= r3.at && Matches(r1, project) && !Matches(r2, project) && Matches(r3, project)
    requires r1.code.Some? && r2.code.Some? && r1.work == r2.work
    ensures var all := [r1] + [r2] + [r3]; Window(all, until, project) == [r3] && Seed(all, until, project) == map[]
  {
    var none: seq<Row> := [];
    assert none + [r1] == [r1];
    QueriesOfAppend(none, r1, until, until, project);
    QueriesOfAppend([r1], r2, until, until, project);
    QueriesOfAppend([r1] + [r2], r3, until, until, project);
    assert Seed([r1] + [r2], until, project) == map[];
  }

  // ---- Exactly when adjacent windows add up ----

  /** The last counted row of a work. */
  function LastCounted(table: seq<Row>, w: Work): Option<Row> {
    if table == [] then None
    else
      var last := table[|table| - 1];
      if last.work == w && last.code.Some? then Some(last) else LastCounted(table[..|table| - 1], w)
  }

  /** The work was last counted outside the filtered Project. */
  predicate LastElsewhere(table: seq<Row>, w: Work, project: Option<string>) {
    var last := LastCounted(table, w);
    last.Some? && !Matches(last.value, project)
  }

  ghost predicate Before(table: seq<Row>, t: Time) {
    forall i :: 0 <= i < |table| ==> table[i].at < t
  }

  /** What the earlier window remembers of each work when the later one starts. */
  ghost function Carried(table: seq<Row>, since: Time, until: Time, project: Option<string>): map<Work, Code> {
    Seen(Between(table, since, until, project), Seed(table, since, project))
  }

  /** No work that was last counted elsewhere has lines left in the earlier window. */
  ghost predicate NothingForgotten(history: seq<Row>, since: Time, until: Time, project: Option<string>) {
    forall w :: LastElsewhere(history, w, project) ==> Previous(Carried(history, since, until, project), w) == NOTHING
  }

  ghost predicate Continues(history: seq<Row>, later: seq<Row>, until: Time) {
    Ordered(history + later) && forall i :: 0 <= i < |later| ==> later[i].at >= until
  }

  lemma {:induction false} SeedIsLastCounted(table: seq<Row>, until: Time, project: Option<string>, w: Work)
    requires Before(table, until)
    ensures var last, seed := LastCounted(table, w), Seed(table, until, project);
            && (w in seed <==> last.Some? && Matches(last.value, project))
            && (w in seed ==> last.value.code == Some(seed[w]))
  {
    if table != [] {
      SeedIsLastCounted(table[..|table| - 1], until, project, w);
    }
  }

  lemma CarriedStep(table: seq<Row>, since: Time, until: Time, project: Option<string>)
    requires table != [] && since <= table[|table| - 1].at < until
    ensures var init, last := table[..|table| - 1], table[|table| - 1];
            Carried(table, since, until, project) ==
            if last.code.Some? && Matches(last, project)
            then Carried(init, since, until, project)[last.work := last.code.value]
            else Carried(init, since, until, project)
  {
    var between, last := Between(table[..|table| - 1], since, until, project), table[|table| - 1];
    assert (between + [last])[..|between|] == between;
  }

  /** The earlier window remembers what the later one is seeded with, and more only of works last
      counted elsewhere. */
  lemma {:induction false} CarriedIsLastCounted(table: seq<Row>, since: Time, until: Time, project: Option<string>,
                                                w: Work)
    requires Ordered(table) && since <= until && Before(table, until) && !LastElsewhere(table, w, project)
    ensures var last, carried := LastCounted(table, w), Carried(table, since, until, project);
            && (w in carried <==> last.Some?)
            && (w in carried ==> last.value.code == Some(carried[w]))
  {
    if table != [] {
      var init, last := table[..|table| - 1], table[|table| - 1];
      if last.at < since {
        BetweenOfEarlier(table, since, until, project);
        SeedIsLastCounted(table, since, project, w);
      } else {
        CarriedStep(table, since, until, project);
        if last.work != w || last.code.None? {
          CarriedIsLastCounted(init, since, until, project, w);
        }
      }
    }
  }

  lemma {:induction false} TotalDependsOnPrevious(rows: seq<Row>, seed: map<Work, Code>, seed': map<Work, Code>)
    requires forall w :: Previous(seed, w) == Previous(seed', w)
    ensures Total(rows, seed) == Total(rows, seed')
    ensures forall w :: Previous(Seen(rows, seed), w) == Previous(Seen(rows, seed'), w)
  {
    if rows != [] {
      var init, last := rows[..|rows| - 1], rows[|rows| - 1];
      TotalDependsOnPrevious(init, seed, seed');
      assert Previous(Seen(init, seed), last.work) == Previous(Seen(init, seed'), last.work);
      forall w ensures Previous(Seen(rows, seed), w) == Previous(Seen(rows, seed'), w) {
        assert Previous(Seen(init, seed), w) == Previous(Seen(init, seed'), w);
      }
    }
  }

  lemma {:induction false} QueriesOfLater(history: seq<Row>, later: seq<Row>, since: Time, until: Time,
                                          project: Option<string>)
    requires since <= until && Before(history, until) && forall i :: 0 <= i < |later| ==> later[i].at >= until
    ensures Between(history + later, since, until, project) == Between(history, since, until, project)
    ensures Seed(history + later, since, project) == Seed(history, since, project)
    ensures Seed(history + later, until, project) == Seed(history, until, project)
    ensures Window(history + later, until, project) == Window(later, until, project)
    decreases |later|
  {
    if later == [] {
      assert history + later == history;
      WindowOfEarlier(history, until, project);
    } else {
      var init, last := later[..|later| - 1], later[|later| - 1];
      QueriesOfLater(history, init, since, until, project);
      assert history + later == (history + init) + [last];
      QueriesOfAppend(history + init, last, since, until, project);
      QueriesOfAppend(history + init, last, until, until, project);
    }
  }

  /** Adjacent windows differ by what the rows of the later one are compared with. */
  lemma AddsUpIffSeedsDo(history: seq<Row>, later: seq<Row>, since: Time, until: Time, project: Option<string>)
    requires since <= until && Before(history, until) && Continues(history, later, until)
    ensures var rows := Window(later, until, project);
            AddsUp(history + later, since, until, project) <==>
            Total(rows, Carried(history, since, until, project)) == Total(rows, Seed(history, until, project))
  {
    QueriesOfLater(history, later, since, until, project);
    WindowSplits(history + later, since, until, project);
    TotalSplits(Between(history, since, until, project), Window(later, until, project), Seed(history, since, project));
  }

  lemma NothingForgottenSuffices(history: seq<Row>, later: seq<Row>, since: Time, until: Time, project: Option<string>)
    requires Ordered(history) && since <= until && Before(history, until)
             && NothingForgotten(history, since, until, project)
    requires Continues(history, later, until)
    ensures AddsUp(history + later, since, until, project)
  {
    var carried, seed := Carried(history, since, until, project), Seed(history, until, project);
    forall w ensures Previous(carried, w) == Previous(seed, w) {
      SeedIsLastCounted(history, until, project, w);
      if !LastElsewhere(history, w, project) {
        CarriedIsLastCounted(history, since, until, project, w);
      }
    }
    TotalDependsOnPrevious(Window(later, until, project), carried, seed);
    AddsUpIffSeedsDo(history, later, since, until, project);
  }

  /** A forgotten work is charted twice as soon as one more sample of it arrives in the Project. */
  lemma ForgottenWorkIsChartedTwice(history: seq<Row>, w: Work, since: Time, until: Time, project: Option<string>,
                                    next: Row)
    requires Ordered(history) && since <= until && Before(history, until) && LastElsewhere(history, w, project)
    requires Previous(Carried(history, since, until, project), w) != NOTHING
    requires next == Row(w, until, project, 0, Some(Previous(Carried(history, since, until, project), w)))
    ensures Continues(history, [next], until) && !AddsUp(history + [next], since, until, project)
  {
    SeedIsLastCounted(history, until, project, w);
    AppendKeepsOrder(history, next);
    AddsUpIffSeedsDo(history, [next], since, until, project);
    WindowOfOne(next, until, project);
    SampleRepeated(next, Carried(history, since, until, project), Seed(history, until, project));
  }

  lemma AppendKeepsOrder(history: seq<Row>, next: Row)
    requires Ordered(history) && Before(history, next.at)
    ensures Ordered(history + [next])
  {
  }

  lemma WindowOfOne(row: Row, since: Time, project: Option<string>)
    requires row.at >= since && Matches(row, project)
    ensures Window([row], since, project) == [row]
  {
  }

  /** An unchanged sample shows nothing to a window that remembers it and everything to one that does not. */
  lemma SampleRepeated(row: Row, carried: map<Work, Code>, seed: map<Work, Code>)
    requires row.code == Some(Previous(carried, row.work)) && row.work !in seed && row.code.value != NOTHING
    ensures Total([row], carried) != Total([row], seed)
  {
  }

  ghost predicate AlwaysAddsUp(history: seq<Row>, since: Time, until: Time, project: Option<string>) {
    forall later :: Continues(history, later, until) ==> AddsUp(history + later, since, until, project)
  }

  lemma OneContinuationBreaks(history: seq<Row>, later: seq<Row>, since: Time, until: Time, project: Option<string>)
    requires Continues(history, later, until) && !AddsUp(history + later, since, until, project)
    ensures !AlwaysAddsUp(history, since, until, project)
  {
  }

  lemma ForgottenSample(history: seq<Row>, since: Time, until: Time, project: Option<string>) returns (later: seq<Row>)
    requires Ordered(history) && since <= until && Before(history, until)
    requires !NothingForgotten(history, since, until, project)
    ensures Continues(history, later, until) && !AddsUp(history + later, since, until, project)
  {
    var w :| LastElsewhere(history, w, project) && Previous(Carried(history, since, until, project), w) != NOTHING;
    var next := Row(w, until, project, 0, Some(Previous(Carried(history, since, until, project), w)));
    ForgottenWorkIsChartedTwice(history, w, since, until, project, next);
    later := [next];
  }

  lemma RememberingKeepsTheSum(history: seq<Row>, since: Time, until: Time, project: Option<string>)
    requires Ordered(history) && since <= until && Before(history, until)
    requires NothingForgotten(history, since, until, project)
    ensures AlwaysAddsUp(history, since, until, project)
  {
    forall later | Continues(history, later, until) ensures AddsUp(history + later, since, until, project) {
      NothingForgottenSuffices(history, later, since, until, project);
    }
  }

  /** Adjacent windows add up, whatever is sampled later, exactly when no work that was last counted
      in another Project still has lines in the earlier window. */
  lemma AdjacentWindowsAddUpIff(history: seq<Row>, since: Time, until: Time, project: Option<string>)
    requires Ordered(history) && since <= until && Before(history, until)
    ensures NothingForgotten(history, since, until, project) <==> AlwaysAddsUp(history, since, until, project)
  {
    if NothingForgotten(history, since, until, project) {
      RememberingKeepsTheSum(history, since, until, project);
    } else {
      var later := ForgottenSample(history, since, until, project);
      OneContinuationBreaks(history, later, since, until, project);
    }
  }

  // ---- The chart ----

  type Chart = map<int, Activity>

  /** The chart has one point per bucket of the window, keyed by the bucket's start. */
  ghost predicate Grid(points: Chart, width: int, first: int, last: int) {
    forall epoch :: epoch in points <==> exists i :: first <= i <= last && epoch == i * width
  }

  lemma SameBucket(i: int, j: int, width: int)
    requires width > 0 && i * width == j * width
    ensures i == j
  {
  }

  /** An empty point for every bucket from the window start to now. */
  method EmptyChart(width: int, first: int, last: int) returns (points: Chart)
    requires width > 0 && first <= last
    ensures Grid(points, width, first, last)
    ensures forall epoch :: epoch in points ==> points[epoch] == Activity(0, 0, 0)
  {
    points := map[];
    var epoch := first * width;
    ghost var i := first;
    while epoch <= last * width
      invariant first <= i <= last + 1 && epoch == i * width
      invariant Grid(points, width, first, i - 1)
      invariant forall e :: e in points ==> points[e] == Activity(0, 0, 0)
      decreases last + 1 - i
    {
      Ordering(i, last, width);
      points := points[epoch := Activity(0, 0, 0)];
      ghost var before := i;
      i := i + 1;
      epoch := epoch + width;
      assert epoch == i * width;
      forall e ensures e in points <==> exists k :: first <= k <= i - 1 && e == k * width {
        if k :| first <= k <= i - 1 && e == k * width {
          assert k <= before - 1 || k == before;
        }
      }
    }
    Ordering(i, last, width);
  }

  ghost predicate Charted(points: Chart, rows: seq<Row>, seed: map<Work, Code>, width: int, first: int, last: int)
    requires width > 0
  {
    && Grid(points, width, first, last)
    && forall i :: first <= i <= last ==> i * width in points && points[i * width] == InBucket(rows, seed, width, i)
  }

  /** Adding one row to its bucket, if the bucket is on the chart. */
  lemma ChartStep(points: Chart, rows: seq<Row>, seed: map<Work, Code>, width: int, first: int, last: int, row: Row,
                  points': Chart)
    requires width > 0 && Charted(points, rows, seed, width, first, last)
    requires var epoch := BucketIndex(row.at, width) * width;
             points' == if epoch in points then points[epoch := Plus(points[epoch], RowActivity(row, Seen(rows, seed)))]
               else points
    ensures Charted(points', rows + [row], seed, width, first, last)
  {
    var index := BucketIndex(row.at, width);
    assert (rows + [row])[..|rows|] == rows;
    forall i | first <= i <= last
      ensures i * width in points' && points'[i * width] == InBucket(rows + [row], seed, width, i)
    {
      if i * width == index * width {
        SameBucket(i, index, width);
      }
    }
  }

  /** `series`: one pass over the window's rows, remembering each work's last sample. */
  method Series(table: seq<Row>, since: Time, now: Time, width: int, project: Option<string>) returns (points: Chart)
    requires width > 0 && since <= now
    ensures Charted(points, Window(table, since, project), Seed(table, since, project), width,
                    BucketIndex(since, width), BucketIndex(now, width))
    ensures forall i :: i * width in points <==> since / 1000 < i * width + width && i * width <= now / 1000
    ensures forall e :: e in points ==> exists i :: e == i * width
    ensures forall e :: e in points ==>
              points[e] == InSpan(Window(table, since, project), Seed(table, since, project), e, e + width)
  {
    var rows := Window(table, since, project);
    ghost var seed := Seed(table, since, project);
    DivMonotone(since, now, 1000);
    DivMonotone(since / 1000, now / 1000, width);
    var first, last := BucketIndex(since, width), BucketIndex(now, width);
    points := EmptyChart(width, first, last);
    var previous := Seed(table, since, project);
    for k := 0 to |rows|
      invariant previous == Seen(rows[..k], seed)
      invariant Charted(points, rows[..k], seed, width, first, last)
    {
      var row := rows[k];
      var bucket := BucketIndex(row.at, width) * width;
      ghost var before := points;
      assert rows[..k + 1] == rows[..k] + [row] && rows[..k + 1][..k] == rows[..k];
      if bucket in points {
        points := points[bucket := Plus(points[bucket], Activity(row.toolCalls, 0, 0))];
      }
      if row.code.Some? {
        var seen := Previous(previous, row.work);
        previous := previous[row.work := row.code.value];
        if bucket in points {
          points := points[bucket := Plus(points[bucket],
                                          Activity(0, Added(seen, row.code.value), Deleted(seen, row.code.value)))];
        }
      }
      ChartStep(before, rows[..k], seed, width, first, last, row, points);
    }
    assert rows[..|rows|] == rows;
    ChartReadsTheClock(points, rows, seed, width, since, now);
  }

  // ---- The chart by the clock ----

  /** A bucket is the span of `width` seconds that holds the time. */
  lemma BucketHoldsTime(at: Time, width: int)
    requires width > 0
    ensures BucketIndex(at, width) * width <= at / 1000 < BucketIndex(at, width) * width + width
  {
  }

  /** It is the only such span that starts at a multiple of the width. */
  lemma BucketOfTime(at: Time, width: int, i: int)
    requires width > 0 && i * width <= at / 1000 < i * width + width
    ensures BucketIndex(at, width) == i
  {
    BucketHoldsTime(at, width);
    var j := BucketIndex(at, width);
    assert (i + 1) * width == i * width + width && (j + 1) * width == j * width + width;
    Ordering(i + 1, j, width);
    Ordering(j + 1, i, width);
  }

  /** The activity of the rows stamped from second `from` up to second `to`. */
  ghost function InSpan(rows: seq<Row>, seed: map<Work, Code>, from: int, to: int): Activity {
    if rows == [] then Activity(0, 0, 0)
    else
      var last, init := rows[|rows| - 1], rows[..|rows| - 1];
      var before := InSpan(init, seed, from, to);
      if from <= last.at / 1000 < to then Plus(before, RowActivity(last, Seen(init, seed))) else before
  }

  lemma {:induction false} BucketIsSpan(rows: seq<Row>, seed: map<Work, Code>, width: int, i: int)
    requires width > 0
    ensures InBucket(rows, seed, width, i) == InSpan(rows, seed, i * width, i * width + width)
  {
    if rows != [] {
      var last := rows[|rows| - 1];
      BucketIsSpan(rows[..|rows| - 1], seed, width, i);
      BucketHoldsTime(last.at, width);
      if i * width <= last.at / 1000 < i * width + width {
        BucketOfTime(last.at, width, i);
      }
    }
  }

  /** A chart read by the clock: its points are the multiples of the width whose span meets the time
      from the window's start to now, and each shows what the rows of its own span add. */
  ghost predicate ChartedByTime(points: Chart, rows: seq<Row>, seed: map<Work, Code>, width: int, since: Time,
                                now: Time)
    requires width > 0
  {
    && (forall i :: i * width in points <==> since / 1000 < i * width + width && i * width <= now / 1000)
    && (forall e :: e in points ==> exists i :: e == i * width)
    && (forall e :: e in points ==> points[e] == InSpan(rows, seed, e, e + width))
  }

  lemma SpansOfTheWindow(width: int, since: Time, now: Time, i: int)
    requires width > 0
    ensures BucketIndex(since, width) <= i <= BucketIndex(now, width) <==>
            since / 1000 < i * width + width && i * width <= now / 1000
  {
    BucketHoldsTime(since, width);
    BucketHoldsTime(now, width);
    var first, last := BucketIndex(since, width), BucketIndex(now, width);
    assert (i + 1) * width == i * width + width && (first + 1) * width == first * width + width;
    assert (last + 1) * width == last * width + width;
    Ordering(first, i, width);
    Ordering(i, last, width);
    Ordering(i + 1, first, width);
    Ordering(last + 1, i, width);
  }

  lemma ChartReadsTheClock(points: Chart, rows: seq<Row>, seed: map<Work, Code>, width: int, since: Time, now: Time)
    requires width > 0 && Charted(points, rows, seed, width, BucketIndex(since, width), BucketIndex(now, width))
    ensures ChartedByTime(points, rows, seed, width, since, now)
  {
    var first, last := BucketIndex(since, width), BucketIndex(now, width);
    forall i ensures i * width in points <==> since / 1000 < i * width + width && i * width <= now / 1000 {
      SpansOfTheWindow(width, since, now, i);
      if k :| first <= k <= last && i * width == k * width {
        SameBucket(i, k, width);
      }
    }
    forall e | e in points ensures (exists i :: e == i * width) && points[e] == InSpan(rows, seed, e, e + width) {
      var i :| first <= i <= last && e == i * width;
      BucketIsSpan(rows, seed, width, i);
    }
  }

  // ---- What is counted ----

  ghost function ToolCalls(rows: seq<Row>): nat {
    if rows == [] then 0 else ToolCalls(rows[..|rows| - 1]) + rows[|rows| - 1].toolCalls
  }

  lemma {:induction false} TotalCountsToolCalls(rows: seq<Row>, seed: map<Work, Code>)
    ensures Total(rows, seed).toolCalls == ToolCalls(rows)
  {
    if rows != [] {
      TotalCountsToolCalls(rows[..|rows| - 1], seed);
    }
  }

  /** One row shows its tool calls, and the change of its work since what was seen of it last: net and
      gross together fix additions and deletions. */
  lemma RowShows(row: Row, seen: map<Work, Code>)
    ensures var shown := RowActivity(row, seen);
            var previous := if row.work in seen then seen[row.work] else Code(0, 0);
            && shown.toolCalls == row.toolCalls
            && (row.code.None? ==> shown.additions == 0 && shown.deletions == 0)
            && (row.code.Some? ==>
                  var current := row.code.value;
                  && shown.additions - shown.deletions ==
                     (current.additions - current.deletions) - (previous.additions - previous.deletions)
                  && shown.additions + shown.deletions ==
                     Distance(previous.additions, current.additions) + Distance(previous.deletions, current.deletions))
  {
  }

  /** The rows a chart reads: those of the Project asked for, if any, from the window's start on. */
  lemma {:induction false} WindowReadsTheTable(table: seq<Row>, since: Time, project: Option<string>, row: Row)
    ensures row in Window(table, since, project) <==>
            row in table && row.at >= since && (project.None? || row.project == project)
  {
    if table != [] {
      assert table == table[..|table| - 1] + [table[|table| - 1]];
      WindowReadsTheTable(table[..|table| - 1], since, project, row);
    }
  }

  /** A work's seed is its last counted row before the window, if that is of the Project asked for. */
  lemma {:induction false} SeedReadsTheTable(table: seq<Row>, since: Time, project: Option<string>, w: Work, k: int)
    requires -1 <= k < |table|
    requires k >= 0 ==> table[k].work == w && table[k].code.Some? && table[k].at < since
    requires forall j :: k < j < |table| ==> table[j].work != w || table[j].code.None? || table[j].at >= since
    ensures var seed := Seed(table, since, project);
            if k >= 0 && (project.None? || table[k].project == project)
            then w in seed && table[k].code == Some(seed[w]) else w !in seed
  {
    if table != [] && k < |table| - 1 {
      SeedReadsTheTable(table[..|table| - 1], since, project, w, k);
    }
  }

  ghost function ChartSum(points: Chart, width: int, first: int, last: int): Activity
    requires forall i :: first <= i <= last ==> i * width in points
    decreases last - first
  {
    if first > last then Activity(0, 0, 0) else Plus(ChartSum(points, width, first, last - 1), points[last * width])
  }

  lemma {:induction false} ChartSumIsSumOfBuckets(points: Chart, rows: seq<Row>, seed: map<Work, Code>, width: int,
                                                  first: int, last: int)
    requires width > 0 && forall i :: first <= i <= last ==>
             i * width in points && points[i * width] == InBucket(rows, seed, width, i)
    ensures ChartSum(points, width, first, last) == SumOfBuckets(rows, seed, width, first, last)
    decreases last - first
  {
    if first <= last {
      ChartSumIsSumOfBuckets(points, rows, seed, width, first, last - 1);
    }
  }

  /** What a chart shows, in terms of the samples alone: its net is every work's net change, its
      gross is the length of the sample path. The bucket width does not appear. */
  lemma ChartShowsTheActivity(points: Chart, table: seq<Row>, since: Time, now: Time, width: int,
                              project: Option<string>,
                              rows: seq<Row>, seed: map<Work, Code>, first: int, last: int)
    requires width > 0 && Charted(points, rows, seed, width, first, last)
    requires rows == Window(table, since, project) && seed == Seed(table, since, project)
    requires first == BucketIndex(since, width) && last == BucketIndex(now, width)
    requires forall k :: 0 <= k < |rows| ==> rows[k].at <= now
    ensures var shown := ChartSum(points, width, first, last);
            && shown == WindowTotal(table, since, project)
            && shown.additions - shown.deletions == NetSum(Seen(rows, seed)) - NetSum(seed)
            && shown.additions + shown.deletions == Variation(rows, seed)
  {
    WindowRowsAreRecent(table, since, project);
    RowsFallInTheWindow(rows, since, now, width);
    ChartSumIsSumOfBuckets(points, rows, seed, width, first, last);
    BucketsSumToTotal(rows, seed, width, first, last);
    TotalIsNetChange(rows, seed);
    TotalIsVariation(rows, seed);
  }

  lemma {:induction false} WindowRowsAreRecent(table: seq<Row>, since: Time, project: Option<string>)
    ensures forall k :: 0 <= k < |Window(table, since, project)| ==> Window(table, since, project)[k].at >= since
  {
    if table != [] {
      WindowRowsAreRecent(table[..|table| - 1], since, project);
    }
  }

  /** After a pass, each work is remembered by its last counted sample, or by its seed. */
  lemma {:induction false} SeenIsLastSample(rows: seq<Row>, seed: map<Work, Code>, w: Work, k: int)
    requires -1 <= k < |rows|
    requires k >= 0 ==> rows[k].work == w && rows[k].code.Some?
    requires forall j :: k < j < |rows| ==> rows[j].work != w || rows[j].code.None?
    ensures if k >= 0 then w in Seen(rows, seed) && Seen(rows, seed)[w] == rows[k].code.value
            else w in Seen(rows, seed) <==> w in seed
    ensures k < 0 && w in seed ==> Seen(rows, seed)[w] == seed[w]
  {
    if |rows| > 0 && k < |rows| - 1 {
      SeenIsLastSample(rows[..|rows| - 1], seed, w, k);
    }
  }
}

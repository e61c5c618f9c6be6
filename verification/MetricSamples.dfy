/** Placing cumulative Git samples into free millisecond slots of `dashboard_metric_points`. */
module MetricSamples {

  type Work = string
  /** Milliseconds since the epoch. */
  type Time = int

  datatype Sample = Sample(additions: nat, deletions: nat)

  /** Rows keyed by work and slot. */
  type Points = map<(Work, Time), Sample>

  ghost function Occupied(points: Points, work: Work, from: Time): set<(Work, Time)> {
    set k | k in points && k.0 == work && k.1 >= from
  }

  /** The first slot of the work that is free at or after a time. */
  ghost predicate FirstFree(points: Points, work: Work, from: Time, slot: Time) {
    && slot >= from && (work, slot) !in points
    && forall t :: from <= t < slot ==> (work, t) in points
  }

  class MetricPoints {
    var points: Points

    /** `insert_git_metric_sample`: step a millisecond at a time to a free slot, and never
        overwrite a row. */
    method InsertGitSample(work: Work, observedAt: Time, sample: Sample) returns (slot: Time)
      modifies this
      ensures FirstFree(old(points), work, observedAt, slot)
      ensures points == old(points)[(work, slot) := sample]
    {
      slot := observedAt;
      while (work, slot) in points
        invariant slot >= observedAt
        invariant points == old(points)
        invariant forall t :: observedAt <= t < slot ==> (work, t) in points
        decreases Occupied(points, work, slot)
      {
        assert (work, slot) in Occupied(points, work, slot);
        assert Occupied(points, work, slot + 1) <= Occupied(points, work, slot);
        slot := slot + 1;
      }
      points := points[(work, slot) := sample];
    }
  }

  // ---- Every run ----

  /** A Git sample of one work, a row written by another producer, or retention. */
  datatype Event =
    | Observe(at: Time, sample: Sample, slot: Time)
    | Touch(key: (Work, Time), row: Sample)
    | Prune(cutoff: Time)

  ghost predicate Possible(points: Points, work: Work, e: Event) {
    e.Observe? ==> FirstFree(points, work, e.at, e.slot)
  }

  ghost function After(points: Points, work: Work, e: Event): Points {
    match e
    case Observe(_, sample, slot) => points[(work, slot) := sample]
    case Touch(key, row) => if key in points then points else points[key := row]
    case Prune(cutoff) => map k | k in points && k.1 >= cutoff :: points[k]
  }

  ghost predicate PossibleRun(points: Points, work: Work, run: seq<Event>)
    decreases |run|
  {
    run != [] ==> Possible(points, work, run[0]) && PossibleRun(After(points, work, run[0]), work, run[1..])
  }

  /** Observation times never go back, nor before what retention has already removed. */
  ghost predicate Chronological(run: seq<Event>, clock: Time)
    decreases |run|
  {
    if run == [] then true
    else match run[0]
      case Observe(at, _, _) => clock <= at && Chronological(run[1..], at)
      case Touch(_, _) => Chronological(run[1..], clock)
      case Prune(cutoff) => Chronological(run[1..], if cutoff > clock then cutoff else clock)
  }

  /** No slot is free between the clock and the newest sample. */
  ghost predicate NoGap(points: Points, work: Work, clock: Time, newest: Time) {
    forall t :: clock <= t <= newest ==> (work, t) in points
  }

  /** Samples of one work land in strictly increasing slots in the order they were observed,
      whatever other rows appear and whatever retention removes. */
  lemma {:induction false} SlotsIncrease(points: Points, work: Work, run: seq<Event>, clock: Time, newest: Time)
    requires PossibleRun(points, work, run) && Chronological(run, clock) && NoGap(points, work, clock, newest)
    ensures forall i :: 0 <= i < |run| && run[i].Observe? ==> newest < run[i].slot
    ensures forall i, j :: 0 <= i < j < |run| && run[i].Observe? && run[j].Observe? ==> run[i].slot < run[j].slot
    decreases |run|
  {
    if run != [] {
      var points' := After(points, work, run[0]);
      match run[0]
      case Observe(at, _, slot) =>
        assert newest < slot;
        SlotsIncrease(points', work, run[1..], at, slot);
      case Touch(_, _) =>
        SlotsIncrease(points', work, run[1..], clock, newest);
      case Prune(cutoff) =>
        SlotsIncrease(points', work, run[1..], if cutoff > clock then cutoff else clock, newest);
      assert forall i :: 0 < i < |run| ==> run[i] == run[1..][i - 1];
    }
  }

  /** A stored sample stays until retention removes it: nothing overwrites or moves it. */
  lemma {:induction false} SamplesPersist(points: Points, work: Work, run: seq<Event>, key: (Work, Time))
    requires PossibleRun(points, work, run) && key in points
    requires forall i :: 0 <= i < |run| && run[i].Prune? ==> run[i].cutoff <= key.1
    ensures key in AfterRun(points, work, run) && AfterRun(points, work, run)[key] == points[key]
    decreases |run|
  {
    if run != [] {
      SamplesPersist(After(points, work, run[0]), work, run[1..], key);
    }
  }

  ghost function AfterRun(points: Points, work: Work, run: seq<Event>): Points
    decreases |run|
  {
    if run == [] then points else AfterRun(After(points, work, run[0]), work, run[1..])
  }
}

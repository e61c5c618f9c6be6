/** The walk over a repository's Git configuration and its includes, possibly cyclic, that
    decides whether the configuration stays inside the workspace. */
module GitConfigWalk {

  const MAX_GIT_CONFIG_DEPTH: nat := 16
  const MAX_GIT_CONFIG_FILES: nat := 64
  const MAX_GIT_CONFIG_BYTES: nat := 1024 * 1024

  type Path = seq<string>

  /** An include's value: not UTF-8, absolute or home-relative, or joined to the including directory. */
  datatype Target = Undecodable | Absolute | Relative(path: Path)

  datatype Record = Malformed | Other | Include(target: Target)

  datatype Listing = Failed | Records(records: seq<Record>)

  datatype File = File(length: nat, listing: Listing)

  /** What `symlink_metadata` and `canonicalize` say of an existing path. */
  datatype Entry = Regular(canonical: Path) | Unresolved | Irregular

  datatype Disk = Disk(root: Path, entries: map<Path, Entry>, files: map<Path, File>)

  /** A regular file resolves to a file that resolves to itself. */
  ghost predicate Coherent(disk: Disk) {
    forall p :: p in disk.entries && disk.entries[p].Regular? ==>
      var c := disk.entries[p].canonical; c in disk.files && c in disk.entries && disk.entries[c] == Regular(c)
  }

  predicate IsRegular(disk: Disk, p: Path) {
    p in disk.entries && disk.entries[p].Regular?
  }

  /** A regular file whose canonical path is inside the workspace. */
  predicate Admits(disk: Disk, p: Path) {
    IsRegular(disk, p) && disk.root <= disk.entries[p].canonical
  }

  predicate RecordOk(disk: Disk, r: Record) {
    match r
    case Malformed => false
    case Other => true
    case Include(target) => target.Relative? && Admits(disk, target.path)
  }

  ghost predicate FileOk(disk: Disk, c: Path) {
    && c in disk.files && disk.root <= c && disk.files[c].length <= MAX_GIT_CONFIG_BYTES
       && disk.files[c].listing.Records?
    && forall r :: r in disk.files[c].listing.records ==> RecordOk(disk, r)
  }

  // ---- Reachability through includes ----

  ghost predicate Names(disk: Disk, r: Record, t: Path) {
    r.Include? && r.target.Relative? && IsRegular(disk, r.target.path) && disk.entries[r.target.path].canonical == t
  }

  ghost predicate Includes(disk: Disk, c: Path, t: Path) {
    && c in disk.files && disk.files[c].listing.Records?
    && exists r :: r in disk.files[c].listing.records && Names(disk, r, t)
  }

  /** The files at most k include steps from the starting files. */
  ghost function Within(disk: Disk, starts: set<Path>, k: nat): set<Path> {
    if k == 0 then starts else OneFurther(disk, Within(disk, starts, k - 1))
  }

  ghost function OneFurther(disk: Disk, near: set<Path>): set<Path> {
    near + (set t | t in disk.files && IncludedFrom(disk, near, t))
  }

  ghost predicate IncludedFrom(disk: Disk, near: set<Path>, t: Path) {
    exists c :: c in near && Includes(disk, c, t)
  }

  lemma IncludedIsWithin(disk: Disk, starts: set<Path>, v: Path, t: Path, k: nat)
    requires v in Within(disk, starts, k) && Includes(disk, v, t) && t in disk.files
    ensures t in Within(disk, starts, k + 1)
  {
  }

  lemma {:induction false} WithinMonotone(disk: Disk, starts: set<Path>, j: nat, k: nat)
    requires j <= k
    ensures Within(disk, starts, j) <= Within(disk, starts, k)
    decreases k
  {
    if j < k {
      WithinMonotone(disk, starts, j, k - 1);
    }
  }

  ghost function TotalLength(disk: Disk, s: set<Path>): nat {
    if s == {} then 0
    else
      var c :| c in s;
      LengthOf(disk, c) + TotalLength(disk, s - {c})
  }

  ghost function LengthOf(disk: Disk, c: Path): nat {
    if c in disk.files then disk.files[c].length else 0
  }

  lemma {:induction false} TotalOfInsert(disk: Disk, s: set<Path>, c: Path)
    requires c !in s
    ensures TotalLength(disk, s + {c}) == TotalLength(disk, s) + LengthOf(disk, c)
    decreases |s|
  {
    var all := s + {c};
    var d :| d in all && TotalLength(disk, all) == LengthOf(disk, d) + TotalLength(disk, all - {d});
    if d == c {
      assert all - {d} == s;
    } else {
      assert all - {d} == (s - {d}) + {c};
      TotalOfInsert(disk, s - {d}, c);
      TotalOfInsert(disk, s - {d}, d);
      assert (s - {d}) + {d} == s;
    }
  }

  lemma {:induction false} TotalMonotone(disk: Disk, s: set<Path>, t: set<Path>)
    requires s <= t
    ensures TotalLength(disk, s) <= TotalLength(disk, t) && |s| <= |t|
    decreases |t|
  {
    if s != t {
      assert exists c :: c in t && c !in s;
      var c :| c in t && c !in s;
      TotalMonotone(disk, s, t - {c});
      TotalOfInsert(disk, t - {c}, c);
      assert (t - {c}) + {c} == t;
    }
  }

  // ---- What acceptance means ----

  ghost function StartPaths(disk: Disk, common: Path, worktree: Path): set<Path> {
    if worktree in disk.entries then {common, worktree} else {common}
  }

  ghost function StartFiles(disk: Disk, common: Path, worktree: Path): set<Path> {
    set p | p in StartPaths(disk, common, worktree) && IsRegular(disk, p) :: disk.entries[p].canonical
  }

  /** Both starting files are admitted; every file within `limit` steps is acceptable and includes
      nothing further at the last step; there are at most 64 of them and 1 MiB in all. */
  ghost predicate Acceptable(disk: Disk, common: Path, worktree: Path, limit: nat)
    requires limit > 0
  {
    var starts := StartFiles(disk, common, worktree);
    var near := Within(disk, starts, limit);
    && (forall p :: p in StartPaths(disk, common, worktree) ==> Admits(disk, p))
    && (forall c :: c in near ==> FileOk(disk, c))
    && (forall c, t :: c in near && c !in Within(disk, starts, limit - 1) ==> !Includes(disk, c, t))
    && |near| <= MAX_GIT_CONFIG_FILES && TotalLength(disk, near) <= MAX_GIT_CONFIG_BYTES
  }

  /** Includes do not lead out of the set. */
  ghost predicate Closed(disk: Disk, near: set<Path>) {
    forall c, t :: c in near && t in disk.files && Includes(disk, c, t) ==> t in near
  }

  lemma NothingBeyond(disk: Disk, starts: set<Path>, k: nat)
    requires k > 0
    requires forall c, t :: c in Within(disk, starts, k) && c !in Within(disk, starts, k - 1) ==> !Includes(disk, c, t)
    ensures Closed(disk, Within(disk, starts, k))
  {
    var near := Within(disk, starts, k);
    forall c, t | c in near && t in disk.files && Includes(disk, c, t) ensures t in near {
      IncludedIsWithin(disk, starts, c, t, k - 1);
    }
  }

  lemma {:induction false} ClosedHoldsAll(disk: Disk, starts: set<Path>, near: set<Path>, j: nat, c: Path)
    requires starts <= near && Closed(disk, near) && c in Within(disk, starts, j)
    ensures c in near
    decreases j
  {
    if j > 0 {
      if c in Within(disk, starts, j - 1) {
        ClosedHoldsAll(disk, starts, near, j - 1, c);
      } else {
        assert IncludedFrom(disk, Within(disk, starts, j - 1), c);
        var v :| v in Within(disk, starts, j - 1) && Includes(disk, v, c);
        ClosedHoldsAll(disk, starts, near, j - 1, v);
      }
    }
  }

  /** Acceptance covers every file reachable through includes at any distance. */
  lemma AcceptableMeansSelfContained(disk: Disk, common: Path, worktree: Path, limit: nat, k: nat)
    requires limit > 0 && Acceptable(disk, common, worktree, limit)
    ensures var reached := Within(disk, StartFiles(disk, common, worktree), k);
            && (forall c :: c in reached ==> FileOk(disk, c))
            && |reached| <= MAX_GIT_CONFIG_FILES && TotalLength(disk, reached) <= MAX_GIT_CONFIG_BYTES
  {
    var starts := StartFiles(disk, common, worktree);
    NothingBeyond(disk, starts, limit);
    WithinMonotone(disk, starts, 0, limit);
    forall c | c in Within(disk, starts, k) ensures c in Within(disk, starts, limit) {
      ClosedHoldsAll(disk, starts, Within(disk, starts, limit), k, c);
    }
    TotalMonotone(disk, Within(disk, starts, k), Within(disk, starts, limit));
  }

  // ---- The same, read off the disk ----

  /** The starting files are the canonical files behind the common and, if it exists, the worktree
      configuration; a step further adds the canonical files their relative includes resolve to. */
  lemma WithinReadsTheDisk(disk: Disk, common: Path, worktree: Path, k: nat, t: Path)
    ensures t in Within(disk, StartFiles(disk, common, worktree), 0) <==>
            || (common in disk.entries && disk.entries[common] == Regular(t))
            || (worktree in disk.entries && disk.entries[worktree] == Regular(t))
    ensures var near := Within(disk, StartFiles(disk, common, worktree), k);
            t in Within(disk, StartFiles(disk, common, worktree), k + 1) <==>
            || t in near
            || (t in disk.files
                && exists c, p ::
                     && c in near && c in disk.files && disk.files[c].listing.Records?
                     && Include(Relative(p)) in disk.files[c].listing.records
                     && p in disk.entries && disk.entries[p] == Regular(t))
  {
    var near := Within(disk, StartFiles(disk, common, worktree), k);
    if t in Within(disk, StartFiles(disk, common, worktree), k + 1) && t !in near {
      assert IncludedFrom(disk, near, t);
      var c :| c in near && Includes(disk, c, t);
      var r :| r in disk.files[c].listing.records && Names(disk, r, t);
      assert r == Include(Relative(r.target.path));
    }
    if c, p :| c in near && c in disk.files && disk.files[c].listing.Records?
               && Include(Relative(p)) in disk.files[c].listing.records
               && p in disk.entries && disk.entries[p] == Regular(t) {
      assert Names(disk, Include(Relative(p)), t);
      assert t in disk.files ==> IncludedFrom(disk, near, t);
    }
  }

  lemma FileReadsTheDisk(disk: Disk, c: Path)
    ensures FileOk(disk, c) <==>
            && c in disk.files && disk.root <= c && disk.files[c].length <= 1048576 && disk.files[c].listing.Records?
            && (forall r :: r in disk.files[c].listing.records ==>
                  && r != Malformed
                  && (r.Include? ==>
                        && r.target.Relative? && r.target.path in disk.entries
                        && disk.entries[r.target.path].Regular?
                        && disk.root <= disk.entries[r.target.path].canonical))
  {
  }

  /** What acceptance promises of the disk: starting files that are regular and inside; behind them, at
      any distance, files inside, no longer than 1 MiB, without a malformed record, whose includes are
      relative and name regular files inside; at most 64 files and 1 MiB in all. */
  lemma AcceptedDisk(disk: Disk, common: Path, worktree: Path, limit: nat, k: nat, reached: set<Path>)
    requires limit > 0 && Acceptable(disk, common, worktree, limit)
    requires reached == Within(disk, StartFiles(disk, common, worktree), k)
    ensures common in disk.entries && disk.entries[common].Regular? && disk.root <= disk.entries[common].canonical
    ensures worktree in disk.entries ==>
              disk.entries[worktree].Regular? && disk.root <= disk.entries[worktree].canonical
    ensures forall c :: c in reached ==>
              && c in disk.files && disk.root <= c && disk.files[c].length <= 1048576
              && disk.files[c].listing.Records?
              && (forall r :: r in disk.files[c].listing.records ==>
                    && r != Malformed
                    && (r.Include? ==>
                          && r.target.Relative? && r.target.path in disk.entries
                          && disk.entries[r.target.path].Regular?
                          && disk.root <= disk.entries[r.target.path].canonical))
    ensures |reached| <= 64 && TotalLength(disk, reached) <= 1048576
  {
    AcceptableMeansSelfContained(disk, common, worktree, limit, k);
    assert common in StartPaths(disk, common, worktree);
  }

  /** And conversely: a disk that keeps all this within the limit, and includes nothing at the limit,
      is accepted. */
  lemma DiskAccepted(disk: Disk, common: Path, worktree: Path, limit: nat, near: set<Path>, nearer: set<Path>)
    requires limit > 0 && near == Within(disk, StartFiles(disk, common, worktree), limit)
    requires nearer == Within(disk, StartFiles(disk, common, worktree), limit - 1)
    requires common in disk.entries && disk.entries[common].Regular? && disk.root <= disk.entries[common].canonical
    requires worktree in disk.entries ==>
               disk.entries[worktree].Regular? && disk.root <= disk.entries[worktree].canonical
    requires forall c :: c in near ==>
               && c in disk.files && disk.root <= c && disk.files[c].length <= 1048576
               && disk.files[c].listing.Records?
               && (forall r :: r in disk.files[c].listing.records ==>
                     && r != Malformed
                     && (r.Include? ==>
                           && r.target.Relative? && r.target.path in disk.entries
                           && disk.entries[r.target.path].Regular?
                           && disk.root <= disk.entries[r.target.path].canonical))
    requires forall c, p :: c in near && c !in nearer ==> Include(Relative(p)) !in disk.files[c].listing.records
    requires |near| <= 64 && TotalLength(disk, near) <= 1048576
    ensures Acceptable(disk, common, worktree, limit)
  {
    FilesReadTheDisk(disk, near, nearer);
    AcceptableByParts(disk, common, worktree, limit, near, nearer);
  }

  lemma AcceptableByParts(disk: Disk, common: Path, worktree: Path, limit: nat, near: set<Path>, nearer: set<Path>)
    requires limit > 0 && near == Within(disk, StartFiles(disk, common, worktree), limit)
    requires nearer == Within(disk, StartFiles(disk, common, worktree), limit - 1)
    requires Admits(disk, common) && (worktree in disk.entries ==> Admits(disk, worktree))
    requires (forall c :: c in near ==> FileOk(disk, c))
    requires forall c, t :: c in near && c !in nearer ==> !Includes(disk, c, t)
    requires |near| <= MAX_GIT_CONFIG_FILES && TotalLength(disk, near) <= MAX_GIT_CONFIG_BYTES
    ensures Acceptable(disk, common, worktree, limit)
  {
  }

  lemma FilesReadTheDisk(disk: Disk, near: set<Path>, nearer: set<Path>)
    requires forall c :: c in near ==>
               && c in disk.files && disk.root <= c && disk.files[c].length <= 1048576
               && disk.files[c].listing.Records?
               && (forall r :: r in disk.files[c].listing.records ==>
                     && r != Malformed
                     && (r.Include? ==>
                           && r.target.Relative? && r.target.path in disk.entries
                           && disk.entries[r.target.path].Regular?
                           && disk.root <= disk.entries[r.target.path].canonical))
    requires forall c, p :: c in near && c !in nearer ==> Include(Relative(p)) !in disk.files[c].listing.records
    ensures forall c :: c in near ==> FileOk(disk, c)
    ensures forall c, t :: c in near && c !in nearer ==> !Includes(disk, c, t)
  {
    forall c | c in near ensures FileOk(disk, c) {
      FileReadsTheDisk(disk, c);
    }
    forall c, t | c in near && c !in nearer ensures !Includes(disk, c, t) {
      IncludesNothingIff(disk, c);
    }
  }

  /** A file at the limit that includes anything is refused. */
  lemma IncludeAtLimitRefused(disk: Disk, common: Path, worktree: Path, limit: nat, c: Path, p: Path)
    requires limit > 0 && c in Within(disk, StartFiles(disk, common, worktree), limit)
    requires c !in Within(disk, StartFiles(disk, common, worktree), limit - 1)
    requires c in disk.files && disk.files[c].listing.Records? && Include(Relative(p)) in disk.files[c].listing.records
    ensures !Acceptable(disk, common, worktree, limit)
  {
    if FileOk(disk, c) {
      IncludesNothingIff(disk, c);
    }
  }

  lemma IncludesNothingIff(disk: Disk, c: Path)
    requires FileOk(disk, c)
    ensures (forall t :: !Includes(disk, c, t)) <==>
            (forall p :: Include(Relative(p)) !in disk.files[c].listing.records)
  {
    if p :| Include(Relative(p)) in disk.files[c].listing.records {
      var r := Include(Relative(p));
      assert RecordOk(disk, r) && Names(disk, r, disk.entries[p].canonical);
      assert Includes(disk, c, disk.entries[p].canonical);
    }
    if t :| Includes(disk, c, t) {
      var r :| r in disk.files[c].listing.records && Names(disk, r, t);
      assert r == Include(Relative(r.target.path));
    }
  }

  // ---- The walk ----

  datatype Item = Item(path: Path, depth: nat)

  /** A queued path is a starting path, or a canonical include of a file visited one step before. */
  ghost predicate ItemOk(disk: Disk, paths: set<Path>, level: map<Path, nat>, q: Item) {
    if q.depth == 0 then q.path in paths
    else
      && Admits(disk, q.path) && disk.entries[q.path].canonical == q.path
      && exists v :: v in level && level[v] == q.depth - 1 && Includes(disk, v, q.path)
  }

  // Here and in `FilesVisited` the trigger keeps the verifier from following chains of includes.
  ghost predicate ItemsOk(disk: Disk, paths: set<Path>, queue: seq<Item>, level: map<Path, nat>) {
    forall q {:trigger ItemOk(disk, paths, level, q)} :: q in queue ==> ItemOk(disk, paths, level, q)
  }

  /** A starting file, or included by a file visited one step before. */
  ghost predicate Reached(disk: Disk, starts: set<Path>, level: map<Path, nat>, c: Path, k: nat) {
    if k == 0 then c in starts else exists v :: v in level && level[v] == k - 1 && Includes(disk, v, c)
  }

  ghost predicate FileVisited(disk: Disk, starts: set<Path>, limit: nat, level: map<Path, nat>, v: Path) {
    v in level && level[v] <= limit && FileOk(disk, v) && Reached(disk, starts, level, v, level[v])
  }

  ghost predicate FilesVisited(disk: Disk, starts: set<Path>, limit: nat, level: map<Path, nat>) {
    forall v {:trigger FileVisited(disk, starts, limit, level, v)} ::
      v in level ==> FileVisited(disk, starts, limit, level, v)
  }

  ghost predicate Layered(queue: seq<Item>, level: map<Path, nat>) {
    && (forall i, j :: 0 <= i <= j < |queue| ==> queue[i].depth <= queue[j].depth <= queue[i].depth + 1)
    && (forall v, q :: v in level && q in queue ==> level[v] <= q.depth)
  }

  ghost predicate IncludePursued(limit: nat, queue: seq<Item>, level: map<Path, nat>, v: Path, t: Path)
    requires v in level
  {
    || Item(t, level[v] + 1) in queue
    || (level[v] < limit && t in level && level[t] <= level[v] + 1)
  }

  ghost predicate StartPursued(disk: Disk, queue: seq<Item>, level: map<Path, nat>, p: Path) {
    || Item(p, 0) in queue
    || (IsRegular(disk, p) && disk.entries[p].canonical in level && level[disk.entries[p].canonical] == 0)
  }

  /** Nothing is forgotten: includes of visited files and starting paths are queued or visited. */
  ghost predicate Pursued(disk: Disk, paths: set<Path>, limit: nat, queue: seq<Item>, level: map<Path, nat>) {
    && (forall v, t :: v in level && Includes(disk, v, t) ==> IncludePursued(limit, queue, level, v, t))
    && (forall p :: p in paths ==> StartPursued(disk, queue, level, p))
  }

  ghost predicate Walking(disk: Disk, common: Path, worktree: Path, limit: nat, queue: seq<Item>,
                          level: map<Path, nat>) {
    && ItemsOk(disk, StartPaths(disk, common, worktree), queue, level)
    && FilesVisited(disk, StartFiles(disk, common, worktree), limit, level)
    && Layered(queue, level)
    && Pursued(disk, StartPaths(disk, common, worktree), limit, queue, level)
  }

  /** A visited file lies within its level. */
  lemma {:induction false} LevelIsWithin(disk: Disk, starts: set<Path>, limit: nat, level: map<Path, nat>, c: Path)
    requires FilesVisited(disk, starts, limit, level) && c in level
    ensures c in Within(disk, starts, level[c])
    decreases level[c], 1
  {
    assert FileVisited(disk, starts, limit, level, c);
    ReachedIsWithin(disk, starts, limit, level, c, level[c]);
  }

  lemma {:induction false} ReachedIsWithin(disk: Disk, starts: set<Path>, limit: nat, level: map<Path, nat>, c: Path,
                                           k: nat)
    requires FilesVisited(disk, starts, limit, level) && Reached(disk, starts, level, c, k) && c in disk.files
    ensures c in Within(disk, starts, k)
    decreases k, 0
  {
    if k > 0 {
      var v :| v in level && level[v] == k - 1 && Includes(disk, v, c);
      LevelIsWithin(disk, starts, limit, level, v);
      IncludedIsWithin(disk, starts, v, c, k - 1);
    }
  }

  lemma StartIsVisited(disk: Disk, common: Path, worktree: Path, queue: seq<Item>, level: map<Path, nat>, c: Path)
    requires forall p :: p in StartPaths(disk, common, worktree) ==> StartPursued(disk, queue, level, p)
    requires (forall q :: q in queue ==> q.depth > 0) && c in StartFiles(disk, common, worktree)
    ensures c in level && level[c] == 0
  {
    var p :| p in StartPaths(disk, common, worktree) && IsRegular(disk, p) && disk.entries[p].canonical == c;
    assert StartPursued(disk, queue, level, p);
  }

  lemma IncludeIsVisited(disk: Disk, paths: set<Path>, limit: nat, queue: seq<Item>, level: map<Path, nat>, v: Path,
                         c: Path, j: nat)
    requires Pursued(disk, paths, limit, queue, level) && v in level && Includes(disk, v, c) && level[v] < j
    requires forall q :: q in queue ==> q.depth > j
    ensures c in level && level[c] <= j
  {
    assert IncludePursued(limit, queue, level, v, c);
  }

  /** Once the queue is past a depth, every file that near has been visited at its distance. */
  lemma {:induction false} LevelsComplete(disk: Disk, common: Path, worktree: Path, limit: nat, queue: seq<Item>,
                                          level: map<Path, nat>, j: nat, c: Path)
    requires Pursued(disk, StartPaths(disk, common, worktree), limit, queue, level)
    requires (forall q :: q in queue ==> q.depth > j) && c in Within(disk, StartFiles(disk, common, worktree), j)
    ensures c in level && level[c] <= j
    decreases j
  {
    var starts := StartFiles(disk, common, worktree);
    if j == 0 {
      StartIsVisited(disk, common, worktree, queue, level, c);
    } else if c in Within(disk, starts, j - 1) {
      LevelsComplete(disk, common, worktree, limit, queue, level, j - 1, c);
    } else {
      assert IncludedFrom(disk, Within(disk, starts, j - 1), c);
      var v :| v in Within(disk, starts, j - 1) && Includes(disk, v, c);
      LevelsComplete(disk, common, worktree, limit, queue, level, j - 1, v);
      IncludeIsVisited(disk, StartPaths(disk, common, worktree), limit, queue, level, v, c, j);
    }
  }

  /** The file behind the front of the queue is reached at the front's depth. */
  lemma FrontIsReached(disk: Disk, common: Path, worktree: Path, level: map<Path, nat>, front: Item)
    requires ItemOk(disk, StartPaths(disk, common, worktree), level, front) && Admits(disk, front.path)
    ensures Reached(disk, StartFiles(disk, common, worktree), level, disk.entries[front.path].canonical, front.depth)
  {
  }

  lemma FrontIsNear(disk: Disk, common: Path, worktree: Path, limit: nat, queue: seq<Item>, level: map<Path, nat>)
    requires Coherent(disk) && Walking(disk, common, worktree, limit, queue, level) && queue != []
    requires queue[0].depth <= limit && Admits(disk, queue[0].path)
    ensures disk.entries[queue[0].path].canonical in Within(disk, StartFiles(disk, common, worktree), limit)
  {
    var front, starts := queue[0], StartFiles(disk, common, worktree);
    assert front in queue && ItemOk(disk, StartPaths(disk, common, worktree), level, front);
    var c := disk.entries[front.path].canonical;
    FrontIsReached(disk, common, worktree, level, front);
    ReachedIsWithin(disk, starts, limit, level, c, front.depth);
    WithinMonotone(disk, starts, front.depth, limit);
  }

  lemma SkipKeepsPursuit(disk: Disk, paths: set<Path>, limit: nat, queue: seq<Item>, level: map<Path, nat>)
    requires Pursued(disk, paths, limit, queue, level) && Layered(queue, level) && queue != []
    requires ItemOk(disk, paths, level, queue[0]) && queue[0].depth <= limit && IsRegular(disk, queue[0].path)
    requires disk.entries[queue[0].path].canonical in level
    ensures Pursued(disk, paths, limit, queue[1..], level)
  {
    assert queue[0] in queue && queue == [queue[0]] + queue[1..];
    forall v, t | v in level && Includes(disk, v, t) ensures IncludePursued(limit, queue[1..], level, v, t) {
      assert IncludePursued(limit, queue, level, v, t);
    }
  }

  /** Skipping a file that was already visited. */
  lemma SkipKeepsWalking(disk: Disk, common: Path, worktree: Path, limit: nat, queue: seq<Item>, level: map<Path, nat>)
    requires Walking(disk, common, worktree, limit, queue, level) && queue != []
    requires queue[0].depth <= limit && IsRegular(disk, queue[0].path) && disk.entries[queue[0].path].canonical in level
    ensures Walking(disk, common, worktree, limit, queue[1..], level)
  {
    var paths := StartPaths(disk, common, worktree);
    assert queue[0] in queue && ItemOk(disk, paths, level, queue[0]);
    SkipKeepsPursuit(disk, paths, limit, queue, level);
  }

  lemma QueuedItemStaysOk(disk: Disk, paths: set<Path>, level: map<Path, nat>, c: Path, k: nat, q: Item)
    requires ItemOk(disk, paths, level, q) && c !in level
    ensures ItemOk(disk, paths, level[c := k], q)
  {
    if q.depth > 0 {
      var v :| v in level && level[v] == q.depth - 1 && Includes(disk, v, q.path);
      assert v in level[c := k] && level[c := k][v] == q.depth - 1;
    }
  }

  lemma PushedItemIsOk(disk: Disk, paths: set<Path>, level: map<Path, nat>, c: Path, k: nat, q: Item)
    requires Coherent(disk) && FileOk(disk, c) && q.depth == k + 1 && Includes(disk, c, q.path)
    ensures ItemOk(disk, paths, level[c := k], q)
  {
    var level' := level[c := k];
    var r :| r in disk.files[c].listing.records && Names(disk, r, q.path);
    assert RecordOk(disk, r) && disk.entries[q.path] == Regular(q.path);
    assert Admits(disk, q.path);
    assert c in level' && level'[c] == q.depth - 1 && Includes(disk, c, q.path);
  }

  lemma VisitKeepsItems(disk: Disk, paths: set<Path>, queue: seq<Item>, level: map<Path, nat>, c: Path, k: nat,
                        pushed: seq<Item>)
    requires Coherent(disk) && queue != [] && ItemsOk(disk, paths, queue, level)
    requires c !in level && FileOk(disk, c)
    requires forall q :: q in pushed <==> q.depth == k + 1 && Includes(disk, c, q.path)
    ensures ItemsOk(disk, paths, queue[1..] + pushed, level[c := k])
  {
    forall q | q in queue[1..] + pushed ensures ItemOk(disk, paths, level[c := k], q) {
      if q in pushed {
        PushedItemIsOk(disk, paths, level, c, k, q);
      } else {
        assert q in queue && ItemOk(disk, paths, level, q);
        QueuedItemStaysOk(disk, paths, level, c, k, q);
      }
    }
  }

  lemma VisitKeepsPursuit(disk: Disk, paths: set<Path>, limit: nat, queue: seq<Item>, level: map<Path, nat>, c: Path,
                          pushed: seq<Item>)
    requires Pursued(disk, paths, limit, queue, level) && queue != [] && queue[0].depth <= limit
    requires ItemOk(disk, paths, level, queue[0]) && Admits(disk, queue[0].path)
    requires c == disk.entries[queue[0].path].canonical && c !in level
    requires forall q :: q in pushed <==> q.depth == queue[0].depth + 1 && Includes(disk, c, q.path)
    ensures Pursued(disk, paths, limit, queue[1..] + pushed, level[c := queue[0].depth])
  {
  }

  lemma VisitKeepsFiles(disk: Disk, starts: set<Path>, limit: nat, level: map<Path, nat>, c: Path, k: nat)
    requires FilesVisited(disk, starts, limit, level) && c !in level
    requires k <= limit && FileOk(disk, c) && Reached(disk, starts, level, c, k)
    ensures FilesVisited(disk, starts, limit, level[c := k])
  {
    var level' := level[c := k];
    forall v | v in level' ensures FileVisited(disk, starts, limit, level', v) {
      assert v != c ==> FileVisited(disk, starts, limit, level, v);
      StillReached(disk, starts, level, c, k, v, level'[v]);
    }
  }

  lemma StillReached(disk: Disk, starts: set<Path>, level: map<Path, nat>, c: Path, k: nat, v: Path, j: nat)
    requires c !in level && Reached(disk, starts, level, v, j)
    ensures Reached(disk, starts, level[c := k], v, j)
  {
    if j > 0 {
      var u :| u in level && level[u] == j - 1 && Includes(disk, u, v);
      assert u in level[c := k] && level[c := k][u] == j - 1;
    }
  }

  /** Visiting a new file and queueing its includes one step further. */
  lemma VisitKeepsWalking(disk: Disk, common: Path, worktree: Path, limit: nat, queue: seq<Item>, level: map<Path, nat>,
                          c: Path, pushed: seq<Item>)
    requires Coherent(disk) && Walking(disk, common, worktree, limit, queue, level) && queue != []
    requires queue[0].depth <= limit && Admits(disk, queue[0].path)
    requires c == disk.entries[queue[0].path].canonical && c !in level && FileOk(disk, c)
    requires forall q :: q in pushed <==> q.depth == queue[0].depth + 1 && Includes(disk, c, q.path)
    ensures Walking(disk, common, worktree, limit, queue[1..] + pushed, level[c := queue[0].depth])
  {
    var paths, starts := StartPaths(disk, common, worktree), StartFiles(disk, common, worktree);
    assert queue[0] in queue && ItemOk(disk, paths, level, queue[0]);
    FrontIsReached(disk, common, worktree, level, queue[0]);
    VisitKeepsFiles(disk, starts, limit, level, c, queue[0].depth);
    VisitKeepsItems(disk, paths, queue, level, c, queue[0].depth, pushed);
    VisitKeepsLayers(queue, level, c, pushed);
    VisitKeepsPursuit(disk, paths, limit, queue, level, c, pushed);
  }

  lemma VisitKeepsLayers(queue: seq<Item>, level: map<Path, nat>, c: Path, pushed: seq<Item>)
    requires Layered(queue, level) && queue != []
    requires forall q :: q in pushed ==> q.depth == queue[0].depth + 1
    ensures Layered(queue[1..] + pushed, level[c := queue[0].depth])
  {
  }

  // ---- Why each refusal is right ----

  /** Every queued path is at least as deep as the front. */
  lemma FrontIsShallowest(queue: seq<Item>, level: map<Path, nat>, q: Item)
    requires Layered(queue, level) && q in queue
    ensures queue[0].depth <= q.depth
  {
  }

  /** A file at the last level that includes another is a reason to refuse. */
  lemma IncludeAtLimit(disk: Disk, common: Path, worktree: Path, limit: nat, v: Path, t: Path)
    requires limit > 0 && Includes(disk, v, t)
    requires v in Within(disk, StartFiles(disk, common, worktree), limit)
    requires v !in Within(disk, StartFiles(disk, common, worktree), limit - 1)
    ensures !Acceptable(disk, common, worktree, limit)
  {
  }

  /** Past the depth limit, the file that queued the front sits at the limit. */
  lemma IncluderAtLimit(disk: Disk, common: Path, worktree: Path, limit: nat, level: map<Path, nat>, front: Item)
    returns (v: Path)
    requires ItemOk(disk, StartPaths(disk, common, worktree), level, front) && front.depth > limit
    requires FilesVisited(disk, StartFiles(disk, common, worktree), limit, level)
    ensures v in level && level[v] == limit && Includes(disk, v, front.path)
  {
    v :| v in level && level[v] == front.depth - 1 && Includes(disk, v, front.path);
    assert FileVisited(disk, StartFiles(disk, common, worktree), limit, level, v);
  }

  /** A file visited at the limit is no nearer. */
  lemma LevelIsExact(disk: Disk, common: Path, worktree: Path, limit: nat, queue: seq<Item>, level: map<Path, nat>,
                     v: Path)
    requires FilesVisited(disk, StartFiles(disk, common, worktree), limit, level) && limit > 0
    requires Pursued(disk, StartPaths(disk, common, worktree), limit, queue, level)
    requires (forall q :: q in queue ==> q.depth > limit - 1) && v in level && level[v] == limit
    ensures v in Within(disk, StartFiles(disk, common, worktree), limit)
    ensures v !in Within(disk, StartFiles(disk, common, worktree), limit - 1)
  {
    LevelIsWithin(disk, StartFiles(disk, common, worktree), limit, level, v);
    if v in Within(disk, StartFiles(disk, common, worktree), limit - 1) {
      LevelsComplete(disk, common, worktree, limit, queue, level, limit - 1, v);
    }
  }

  lemma DepthRefusal(disk: Disk, common: Path, worktree: Path, limit: nat, queue: seq<Item>, level: map<Path, nat>)
    requires Walking(disk, common, worktree, limit, queue, level) && queue != [] && queue[0].depth > limit
    requires limit > 0
    ensures !Acceptable(disk, common, worktree, limit)
  {
    assert queue[0] in queue && ItemOk(disk, StartPaths(disk, common, worktree), level, queue[0]);
    var v := IncluderAtLimit(disk, common, worktree, limit, level, queue[0]);
    forall q | q in queue ensures q.depth > limit - 1 {
      FrontIsShallowest(queue, level, q);
    }
    LevelIsExact(disk, common, worktree, limit, queue, level, v);
    IncludeAtLimit(disk, common, worktree, limit, v, queue[0].path);
  }

  lemma StartRefusal(disk: Disk, common: Path, worktree: Path, limit: nat, queue: seq<Item>, level: map<Path, nat>)
    requires Walking(disk, common, worktree, limit, queue, level) && queue != [] && !Admits(disk, queue[0].path)
    requires limit > 0
    ensures !Acceptable(disk, common, worktree, limit)
  {
    assert queue[0] in queue && ItemOk(disk, StartPaths(disk, common, worktree), level, queue[0]);
  }

  lemma FileRefusal(disk: Disk, common: Path, worktree: Path, limit: nat, queue: seq<Item>, level: map<Path, nat>)
    requires Coherent(disk) && Walking(disk, common, worktree, limit, queue, level) && queue != []
    requires queue[0].depth <= limit && Admits(disk, queue[0].path)
             && !FileOk(disk, disk.entries[queue[0].path].canonical)
    requires limit > 0
    ensures !Acceptable(disk, common, worktree, limit)
  {
    FrontIsNear(disk, common, worktree, limit, queue, level);
  }

  lemma VisitedIsNear(disk: Disk, starts: set<Path>, limit: nat, level: map<Path, nat>)
    requires FilesVisited(disk, starts, limit, level)
    ensures level.Keys <= Within(disk, starts, limit)
  {
    forall v | v in level ensures v in Within(disk, starts, limit) {
      assert FileVisited(disk, starts, limit, level, v);
      LevelIsWithin(disk, starts, limit, level, v);
      WithinMonotone(disk, starts, level[v], limit);
    }
  }

  lemma SizeRefusal(disk: Disk, common: Path, worktree: Path, limit: nat, queue: seq<Item>, level: map<Path, nat>,
                    visited: set<Path>)
    requires Coherent(disk) && Walking(disk, common, worktree, limit, queue, level) && queue != []
    requires queue[0].depth <= limit && Admits(disk, queue[0].path)
    requires visited == level.Keys + {disk.entries[queue[0].path].canonical}
    requires |visited| > MAX_GIT_CONFIG_FILES || TotalLength(disk, visited) > MAX_GIT_CONFIG_BYTES
    requires limit > 0
    ensures !Acceptable(disk, common, worktree, limit)
  {
    var starts := StartFiles(disk, common, worktree);
    FrontIsNear(disk, common, worktree, limit, queue, level);
    VisitedIsNear(disk, starts, limit, level);
    TotalMonotone(disk, visited, Within(disk, starts, limit));
  }

  /** When the queue is empty the near files are exactly the visited ones. */
  lemma NearIsVisited(disk: Disk, common: Path, worktree: Path, limit: nat, level: map<Path, nat>)
    requires Walking(disk, common, worktree, limit, [], level)
    ensures Within(disk, StartFiles(disk, common, worktree), limit) == level.Keys
  {
    var starts := StartFiles(disk, common, worktree);
    VisitedIsNear(disk, starts, limit, level);
    forall c | c in Within(disk, starts, limit) ensures c in level {
      LevelsComplete(disk, common, worktree, limit, [], level, limit, c);
    }
  }

  /** When the queue is empty the last level includes nothing. */
  lemma LastLevelEnds(disk: Disk, common: Path, worktree: Path, limit: nat, level: map<Path, nat>, c: Path, t: Path)
    requires limit > 0 && Walking(disk, common, worktree, limit, [], level)
    requires c in level && c !in Within(disk, StartFiles(disk, common, worktree), limit - 1)
    ensures !Includes(disk, c, t)
  {
    var starts := StartFiles(disk, common, worktree);
    assert FileVisited(disk, starts, limit, level, c);
    LevelIsWithin(disk, starts, limit, level, c);
    if level[c] < limit {
      WithinMonotone(disk, starts, level[c], limit - 1);
    }
    assert Includes(disk, c, t) ==> IncludePursued(limit, [], level, c, t);
  }

  /** When the queue is empty every starting path has been admitted. */
  lemma StartsAdmitted(disk: Disk, common: Path, worktree: Path, limit: nat, level: map<Path, nat>, p: Path)
    requires Walking(disk, common, worktree, limit, [], level) && p in StartPaths(disk, common, worktree)
    ensures Admits(disk, p)
  {
    assert StartPursued(disk, [], level, p);
    assert FileVisited(disk, StartFiles(disk, common, worktree), limit, level, disk.entries[p].canonical);
  }

  lemma FinishedIsAcceptable(disk: Disk, common: Path, worktree: Path, limit: nat, level: map<Path, nat>)
    requires Walking(disk, common, worktree, limit, [], level)
    requires |level.Keys| <= MAX_GIT_CONFIG_FILES && TotalLength(disk, level.Keys) <= MAX_GIT_CONFIG_BYTES
    requires limit > 0
    ensures Acceptable(disk, common, worktree, limit)
  {
    var starts := StartFiles(disk, common, worktree);
    NearIsVisited(disk, common, worktree, limit, level);
    forall c, t | c in level && c !in Within(disk, starts, limit - 1) ensures !Includes(disk, c, t) {
      LastLevelEnds(disk, common, worktree, limit, level, c, t);
    }
    forall p | p in StartPaths(disk, common, worktree) ensures Admits(disk, p) {
      StartsAdmitted(disk, common, worktree, limit, level, p);
    }
    forall c | c in level ensures FileOk(disk, c) {
      assert FileVisited(disk, starts, limit, level, c);
    }
  }

  /** Parse one file's records; queue the canonical target of every include. */
  method ScanRecords(disk: Disk, records: seq<Record>, depth: nat) returns (ok: bool, pushed: seq<Item>)
    requires Coherent(disk)
    ensures ok <==> forall r :: r in records ==> RecordOk(disk, r)
    ensures ok ==> forall q :: q in pushed <==> q.depth == depth && exists r :: r in records && Names(disk, r, q.path)
  {
    pushed := [];
    for i := 0 to |records|
      invariant forall j :: 0 <= j < i ==> RecordOk(disk, records[j])
      invariant forall q :: q in pushed <==>
                q.depth == depth && exists j :: 0 <= j < i && Names(disk, records[j], q.path)
    {
      assert records[i] in records;
      match records[i] {
        case Malformed =>
          return false, [];
        case Other =>
        case Include(target) =>
          if !target.Relative? || !Admits(disk, target.path) {
            return false, [];
          }
          pushed := pushed + [Item(disk.entries[target.path].canonical, depth)];
      }
    }
    ok := true;
  }

  /** `has_self_contained_git_config`: terminates on cyclic includes and decides acceptability. */
  method HasSelfContainedConfig(disk: Disk, common: Path, worktree: Path) returns (ok: bool)
    requires Coherent(disk)
    ensures ok <==> Acceptable(disk, common, worktree, 16)
  {
    ok := WalkConfig(disk, common, worktree, MAX_GIT_CONFIG_DEPTH);
  }

  lemma StartWalking(disk: Disk, common: Path, worktree: Path, limit: nat, queue: seq<Item>)
    requires queue == [Item(common, 0)] + (if worktree in disk.entries then [Item(worktree, 0)] else [])
    ensures Walking(disk, common, worktree, limit, queue, map[])
  {
  }

  /** One queue item: refuse, skip, or visit the file and queue its includes. */
  method VisitNext(disk: Disk, common: Path, worktree: Path, limit: nat, queue: seq<Item>, visited: set<Path>,
                   totalBytes: nat, ghost level: map<Path, nat>)
    returns (ok: bool, queue': seq<Item>, visited': set<Path>, totalBytes': nat, ghost level': map<Path, nat>)
    requires Coherent(disk) && limit > 0 && queue != [] && Walking(disk, common, worktree, limit, queue, level)
    requires visited == level.Keys && |visited| <= MAX_GIT_CONFIG_FILES
             && totalBytes == TotalLength(disk, visited) <= MAX_GIT_CONFIG_BYTES
    ensures !ok ==> !Acceptable(disk, common, worktree, limit)
    ensures ok ==> Walking(disk, common, worktree, limit, queue', level')
    ensures ok ==> visited' == level'.Keys && |visited'| <= MAX_GIT_CONFIG_FILES
    ensures ok ==> totalBytes' == TotalLength(disk, visited') <= MAX_GIT_CONFIG_BYTES
    ensures ok ==> |visited'| > |visited| || (visited' == visited && |queue'| < |queue|)
  {
    var item := queue[0];
    ok, queue', visited', totalBytes', level' := false, queue[1..], visited, totalBytes, level;
    if item.depth > limit {
      DepthRefusal(disk, common, worktree, limit, queue, level);
      return;
    }
    if !Admits(disk, item.path) {
      StartRefusal(disk, common, worktree, limit, queue, level);
      return;
    }
    var config := disk.entries[item.path].canonical;
    if disk.files[config].length > MAX_GIT_CONFIG_BYTES {
      FileRefusal(disk, common, worktree, limit, queue, level);
      return;
    }
    if config in visited {
      SkipKeepsWalking(disk, common, worktree, limit, queue, level);
      ok := true;
      return;
    }
    ok, queue', visited', totalBytes', level' :=
      VisitFile(disk, common, worktree, limit, queue, visited, totalBytes, config, level);
  }

  /** A file seen for the first time: count it, read its records, queue its includes. */
  method VisitFile(disk: Disk, common: Path, worktree: Path, limit: nat, queue: seq<Item>, visited: set<Path>,
                   totalBytes: nat, config: Path, ghost level: map<Path, nat>)
    returns (ok: bool, queue': seq<Item>, visited': set<Path>, totalBytes': nat, ghost level': map<Path, nat>)
    requires Coherent(disk) && limit > 0 && queue != [] && Walking(disk, common, worktree, limit, queue, level)
    requires visited == level.Keys && |visited| <= MAX_GIT_CONFIG_FILES
             && totalBytes == TotalLength(disk, visited) <= MAX_GIT_CONFIG_BYTES
    requires queue[0].depth <= limit && Admits(disk, queue[0].path) && config == disk.entries[queue[0].path].canonical
    requires config !in visited && disk.files[config].length <= MAX_GIT_CONFIG_BYTES
    ensures !ok ==> !Acceptable(disk, common, worktree, limit)
    ensures ok ==> Walking(disk, common, worktree, limit, queue', level')
    ensures ok ==> visited' == level'.Keys && |visited'| <= MAX_GIT_CONFIG_FILES
    ensures ok ==> totalBytes' == TotalLength(disk, visited') <= MAX_GIT_CONFIG_BYTES
    ensures ok ==> |visited'| > |visited|
  {
    ok, queue', level' := false, queue, level;
    TotalOfInsert(disk, visited, config);
    visited' := visited + {config};
    totalBytes' := totalBytes + disk.files[config].length;
    if |visited'| > MAX_GIT_CONFIG_FILES || totalBytes' > MAX_GIT_CONFIG_BYTES {
      SizeRefusal(disk, common, worktree, limit, queue, level, visited');
      return;
    }
    if disk.files[config].listing.Failed? {
      FileRefusal(disk, common, worktree, limit, queue, level);
      return;
    }
    var readable, pushed := ScanRecords(disk, disk.files[config].listing.records, queue[0].depth + 1);
    if !readable {
      FileRefusal(disk, common, worktree, limit, queue, level);
      return;
    }
    VisitKeepsWalking(disk, common, worktree, limit, queue, level, config, pushed);
    ok, queue', level' := true, queue[1..] + pushed, level[config := queue[0].depth];
  }

  method WalkConfig(disk: Disk, common: Path, worktree: Path, limit: nat) returns (ok: bool)
    requires Coherent(disk) && limit > 0
    ensures ok <==> Acceptable(disk, common, worktree, limit)
  {
    var queue := [Item(common, 0)];
    if worktree in disk.entries {
      if !disk.entries[worktree].Regular? {
        assert worktree in StartPaths(disk, common, worktree) && !Admits(disk, worktree);
        return false;
      }
      queue := queue + [Item(worktree, 0)];
    }
    var visited: set<Path>, totalBytes := {}, 0;
    ghost var level: map<Path, nat> := map[];
    StartWalking(disk, common, worktree, limit, queue);
    ok := true;
    while queue != []
      invariant ok && Walking(disk, common, worktree, limit, queue, level)
      invariant visited == level.Keys && |visited| <= MAX_GIT_CONFIG_FILES
      invariant totalBytes == TotalLength(disk, visited) <= MAX_GIT_CONFIG_BYTES
      decreases MAX_GIT_CONFIG_FILES - |visited|, |queue|
    {
      ok, queue, visited, totalBytes, level :=
        VisitNext(disk, common, worktree, limit, queue, visited, totalBytes, level);
      if !ok {
        return;
      }
    }
    FinishedIsAcceptable(disk, common, worktree, limit, level);
  }
}

/** Bounded breadth-first discovery of repositories below a workspace root. */
module RepositoryDiscovery {
  import opened TextOrder

  const MAX_DISCOVERY_DEPTH: nat := 4
  const MAX_SCANNED_DIRECTORIES: nat := 512
  const MAX_REPOSITORIES: nat := 32

  type Name = string
  /** Names below the workspace root; the root is the empty path. */
  type Path = seq<Name>

  /** `eligible` is whether `inspect_repository` accepts the directory. */
  datatype Entry = Directory(eligible: bool, readable: bool) | Symlink | File

  type Tree = map<Path, Entry>

  predicate IgnoredDirectory(name: Name) {
    name in {".git", ".xpressclaw", "node_modules", "target", ".venv", "__pycache__"}
  }

  predicate Eligible(tree: Tree, p: Path) {
    p in tree && tree[p].Directory? && tree[p].eligible
  }

  /** Discovery looks below a readable directory that is not itself a repository. */
  predicate Descends(tree: Tree, p: Path) {
    p in tree && tree[p].Directory? && !tree[p].eligible && tree[p].readable
  }

  predicate Enterable(tree: Tree, p: Path, name: Name) {
    p + [name] in tree && tree[p + [name]].Directory? && !IgnoredDirectory(name)
  }

  /** Reached from the root only through real, non-ignored directories that are no repositories. */
  ghost predicate Visible(tree: Tree, p: Path) {
    forall k :: 0 <= k < |p| ==> Descends(tree, p[..k]) && Enterable(tree, p[..k], p[k])
  }

  lemma VisibleChild(tree: Tree, p: Path, name: Name)
    requires Visible(tree, p) && Descends(tree, p) && Enterable(tree, p, name)
    ensures Visible(tree, p + [name])
  {
    var q := p + [name];
    forall k | 0 <= k < |q|
      ensures Descends(tree, q[..k]) && Enterable(tree, q[..k], q[k])
    {
      if k < |p| {
        assert q[..k] == p[..k];
      } else {
        assert q[..k] == p;
      }
    }
  }

  ghost function ChildNames(tree: Tree, p: Path): set<Name> {
    set q | q in tree && |q| == |p| + 1 && q[..|p|] == p && Enterable(tree, p, q[|p|]) :: q[|p|]
  }

  lemma ChildNamesAreEnterable(tree: Tree, p: Path, name: Name)
    ensures name in ChildNames(tree, p) <==> Enterable(tree, p, name)
  {
  }

  /** The readable, non-ignored subdirectories, sorted by name. */
  method ListChildren(tree: Tree, p: Path) returns (names: seq<Name>)
    ensures forall n :: n in names <==> Enterable(tree, p, n)
    ensures forall i, j :: 0 <= i < j < |names| ==> names[i] != names[j] && TextBelow(names[i], names[j])
  {
    var found := set q | q in tree && |q| == |p| + 1 && q[..|p|] == p && Enterable(tree, p, q[|p|]) :: q[|p|];
    names := SortKeys(found);
    forall n ensures n in names <==> Enterable(tree, p, n) {
      ChildNamesAreEnterable(tree, p, n);
    }
  }

  ghost predicate HasChild(tree: Tree, p: Path) {
    Descends(tree, p) && exists n :: Enterable(tree, p, n)
  }

  /** No two repositories of a visible set are nested. */
  lemma VisibleRepositoriesAreNotNested(tree: Tree, p: Path, q: Path)
    requires Visible(tree, p) && Eligible(tree, p) && Visible(tree, q) && Eligible(tree, q)
    ensures p <= q ==> p == q
  {
    if p <= q {
      assert q[..|p|] == p;
      assert |p| < |q| ==> Descends(tree, q[..|p|]);
    }
  }

  // ---- The loop's invariant ----

  ghost function Items(s: seq<Path>): set<Path> {
    set p | p in s
  }

  ghost predicate Distinct(s: seq<Path>) {
    forall i, j :: 0 <= i < j < |s| ==> s[i] != s[j]
  }

  ghost predicate ParentScanned(scanned: set<Path>, p: Path) {
    p != [] ==> p[..|p| - 1] in scanned
  }

  /** The queue and the scanned set are disjoint, visible, and closed upwards. */
  ghost predicate Frontier(tree: Tree, queue: seq<Path>, scanned: set<Path>) {
    && Distinct(queue) && Items(queue) !! scanned
    && (forall p :: p in queue || p in scanned ==> Visible(tree, p) && |p| <= MAX_DISCOVERY_DEPTH)
    && (forall p {:trigger ParentScanned(scanned, p)} :: p in queue || p in scanned ==> ParentScanned(scanned, p))
    && ([] in queue || [] in scanned)
  }

  /** Every scanned directory above the depth limit has its children queued or scanned. */
  ghost predicate Expanded(tree: Tree, queue: seq<Path>, scanned: set<Path>) {
    forall p, n :: p in scanned && |p| < MAX_DISCOVERY_DEPTH && Descends(tree, p) && Enterable(tree, p, n) ==>
                     p + [n] in queue || p + [n] in scanned
  }

  /** The queue is ordered by depth, spans at most two depths, and lies below everything scanned. */
  ghost predicate Layered(queue: seq<Path>, scanned: set<Path>) {
    && (forall i, j :: 0 <= i <= j < |queue| ==> |queue[i]| <= |queue[j]| <= |queue[i]| + 1)
    && (forall p, q :: p in scanned && q in queue ==> |p| <= |q|)
  }

  // ---- The order of the scan ----

  /** At the first name where two paths of one length differ, the first has the lower name. */
  ghost predicate NamesBelow(p: Path, q: Path) {
    |p| == |q| && exists k :: 0 <= k < |p| && p[..k] == q[..k] && TextBelow(p[k], q[k])
  }

  /** Shallower directories come first, directories of one depth in the order of their names. */
  ghost predicate PathBelow(p: Path, q: Path) {
    |p| < |q| || NamesBelow(p, q)
  }

  lemma PathBelowAsymmetric(p: Path, q: Path)
    requires PathBelow(p, q)
    ensures !PathBelow(q, p)
  {
    if |p| == |q| {
      var k :| 0 <= k < |p| && p[..k] == q[..k] && TextBelow(p[k], q[k]);
      forall j | 0 <= j < |p| && q[..j] == p[..j] ensures !TextBelow(q[j], p[j]) {
        DecidedOnce(p, q, k, j);
      }
    }
  }

  lemma DecidedOnce(p: Path, q: Path, k: nat, j: nat)
    requires k < |p| == |q| && j < |p| && p[..k] == q[..k] && q[..j] == p[..j] && TextBelow(p[k], q[k])
    ensures !TextBelow(q[j], p[j])
  {
    if j < k {
      assert p[j] == p[..k][j] == q[..k][j] == q[j];
    } else if k < j {
      assert p[k] == p[..j][k] == q[..j][k] == q[k];
    }
    TextAsymmetric(p[j], q[j]);
    TextIrreflexive(p[j]);
    TextIrreflexive(p[k]);
  }

  lemma TextAsymmetric(a: string, b: string)
    ensures !(TextBelow(a, b) && TextBelow(b, a))
  {
    if TextBelow(a, b) && TextBelow(b, a) {
      TextTransitive(a, b, a);
      TextIrreflexive(a);
    }
  }

  lemma {:induction false} FirstDifference(p: Path, q: Path, n: nat) returns (k: nat)
    requires n <= |p| == |q|
    ensures k <= n && p[..k] == q[..k] && (k < n ==> p[k] != q[k])
  {
    k := 0;
    if n > 0 {
      k := FirstDifference(p, q, n - 1);
      if k == n - 1 && p[k] == q[k] {
        assert p[..n] == p[..k] + [p[k]] && q[..n] == q[..k] + [q[k]];
        k := n;
      }
    }
  }

  lemma PathBelowTotal(p: Path, q: Path)
    ensures p == q || PathBelow(p, q) || PathBelow(q, p)
  {
    if |p| == |q| {
      var k := FirstDifference(p, q, |p|);
      if k == |p| {
        assert p[..k] == p && q[..k] == q;
      } else {
        TextTotal(p[k], q[k]);
      }
    }
  }

  /** The queue is in order, and everything scanned comes before it. */
  ghost predicate InOrder(queue: seq<Path>, scanned: set<Path>) {
    && (forall i, j {:trigger PathBelow(queue[i], queue[j])} :: 0 <= i < j < |queue| ==> PathBelow(queue[i], queue[j]))
    && (forall p, q {:trigger PathBelow(p, q)} :: p in scanned && q in queue ==> PathBelow(p, q))
  }

  lemma ChildrenFollowParents(p: Path, q: Path, a: Name, b: Name)
    requires NamesBelow(p, q)
    ensures NamesBelow(p + [a], q + [b])
  {
    var k :| 0 <= k < |p| && p[..k] == q[..k] && TextBelow(p[k], q[k]);
    assert (p + [a])[..k] == p[..k] && (q + [b])[..k] == q[..k] && (p + [a])[k] == p[k] && (q + [b])[k] == q[k];
  }

  lemma SiblingsInOrder(p: Path, a: Name, b: Name)
    requires TextBelow(a, b)
    ensures PathBelow(p + [a], p + [b])
  {
    assert (p + [a])[..|p|] == p == (p + [b])[..|p|];
    assert (p + [a])[|p|] == a && (p + [b])[|p|] == b;
  }

  /** What was queued before comes before the children queued now. */
  lemma QueuedBeforeChild(p: Path, q: Path, n: Name)
    requires |q| <= |p| + 1 && (|q| == |p| + 1 ==> PathBelow(q[..|q| - 1], p))
    ensures PathBelow(q, p + [n])
  {
    if |q| == |p| + 1 {
      var parent := q[..|q| - 1];
      ChildrenFollowParents(parent, p, q[|q| - 1], n);
      assert q == parent + [q[|q| - 1]];
    }
  }

  lemma QueueStaysInOrder(queue: seq<Path>, scanned: set<Path>, names: seq<Name>, i: nat, j: nat)
    requires queue != [] && InOrder(queue, scanned) && i < j < |queue| - 1 + |names|
    requires forall q :: q in queue ==> |q| <= |queue[0]| + 1 && (|q| == |queue[0]| + 1 ==> q[..|q| - 1] in scanned)
    requires forall a, b :: 0 <= a < b < |names| ==> TextBelow(names[a], names[b])
    ensures var queue' := queue[1..] + Extend(queue[0], names); PathBelow(queue'[i], queue'[j])
  {
    var p, rest := queue[0], queue[1..];
    var queue' := rest + Extend(p, names);
    assert p in queue;
    if j < |rest| {
      assert queue'[i] == queue[i + 1] && queue'[j] == queue[j + 1];
      assert PathBelow(queue[i + 1], queue[j + 1]);
    } else if i < |rest| {
      var q := queue[i + 1];
      assert queue'[i] == q && q in queue && queue'[j] == p + [names[j - |rest|]];
      assert |q| == |p| + 1 ==> PathBelow(q[..|q| - 1], p);
      QueuedBeforeChild(p, q, names[j - |rest|]);
    } else {
      assert queue'[i] == p + [names[i - |rest|]] && queue'[j] == p + [names[j - |rest|]];
      SiblingsInOrder(p, names[i - |rest|], names[j - |rest|]);
    }
  }

  lemma ScannedStaysBefore(queue: seq<Path>, scanned: set<Path>, names: seq<Name>, s: Path, q: Path)
    requires queue != [] && InOrder(queue, scanned) && forall u :: u in scanned ==> |u| <= |queue[0]|
    requires s in scanned + {queue[0]} && q in queue[1..] + Extend(queue[0], names)
    ensures PathBelow(s, q)
  {
    var p, rest := queue[0], queue[1..];
    if q in rest {
      var j :| 0 <= j < |rest| && rest[j] == q;
      assert q == queue[j + 1] && q in queue;
      assert PathBelow(queue[0], queue[j + 1]);
      assert s in scanned ==> PathBelow(s, q);
    } else {
      ExtendMembers(p, names, q);
    }
  }

  lemma ScanKeepsOrder(tree: Tree, queue: seq<Path>, scanned: set<Path>, names: seq<Name>)
    requires queue != [] && Frontier(tree, queue, scanned) && Layered(queue, scanned) && InOrder(queue, scanned)
    requires forall i, j :: 0 <= i < j < |names| ==> TextBelow(names[i], names[j])
    ensures InOrder(queue[1..] + Extend(queue[0], names), scanned + {queue[0]})
  {
    var queue' := queue[1..] + Extend(queue[0], names);
    ParentsOfQueue(tree, queue, scanned);
    forall i, j | 0 <= i < j < |queue'| ensures PathBelow(queue'[i], queue'[j]) {
      QueueStaysInOrder(queue, scanned, names, i, j);
    }
    forall s, q | s in scanned + {queue[0]} && q in queue' ensures PathBelow(s, q) {
      ScannedStaysBefore(queue, scanned, names, s, q);
    }
  }

  lemma ParentsOfQueue(tree: Tree, queue: seq<Path>, scanned: set<Path>)
    requires queue != [] && Frontier(tree, queue, scanned) && Layered(queue, scanned)
    ensures forall q :: q in queue ==> |q| <= |queue[0]| + 1 && (|q| == |queue[0]| + 1 ==> q[..|q| - 1] in scanned)
    ensures forall u :: u in scanned ==> |u| <= |queue[0]|
  {
    assert queue[0] in queue;
    forall q | q in queue ensures |q| <= |queue[0]| + 1 && (|q| == |queue[0]| + 1 ==> q[..|q| - 1] in scanned) {
      var i :| 0 <= i < |queue| && queue[i] == q;
      assert ParentScanned(scanned, q);
    }
  }

  /** A visible directory that was not scanned has itself or one above it in the queue. */
  lemma {:induction false} QueuedAbove(tree: Tree, queue: seq<Path>, scanned: set<Path>, p: Path) returns (a: Path)
    requires Frontier(tree, queue, scanned) && Expanded(tree, queue, scanned)
    requires Visible(tree, p) && |p| <= MAX_DISCOVERY_DEPTH && p !in scanned
    ensures a in queue && |a| <= |p| && (|a| == |p| ==> a == p)
    decreases |p|
  {
    a := p;
    if p != [] {
      var parent, name := p[..|p| - 1], p[|p| - 1];
      assert Descends(tree, p[..|p| - 1]) && Enterable(tree, p[..|p| - 1], p[|p| - 1]);
      assert p == parent + [name];
      if parent !in scanned {
        forall k | 0 <= k < |parent| ensures Descends(tree, parent[..k]) && Enterable(tree, parent[..k], parent[k]) {
          assert parent[..k] == p[..k];
        }
        a := QueuedAbove(tree, queue, scanned, parent);
      }
    }
  }

  /** Nothing is scanned before a visible directory that comes earlier. */
  lemma EarlierIsScanned(tree: Tree, queue: seq<Path>, scanned: set<Path>, p: Path, q: Path)
    requires Frontier(tree, queue, scanned) && Expanded(tree, queue, scanned) && InOrder(queue, scanned)
    requires q in scanned && Visible(tree, p) && PathBelow(p, q)
    ensures p in scanned
  {
    if p !in scanned {
      var a := QueuedAbove(tree, queue, scanned, p);
      assert PathBelow(q, a);
      PathBelowAsymmetric(p, q);
    }
  }

  /** The scan stops at the last repository it may return. */
  ghost predicate StopsInTime(repositories: seq<Path>, scanned: set<Path>) {
    |repositories| >= MAX_REPOSITORIES ==>
      forall q :: q in scanned ==>
        q == repositories[|repositories| - 1] || PathBelow(q, repositories[|repositories| - 1])
  }

  lemma ScanStopsInTime(queue: seq<Path>, scanned: set<Path>, repositories: seq<Path>, p: Path, found: bool)
    requires queue != [] && p == queue[0] && InOrder(queue, scanned) && |repositories| < MAX_REPOSITORIES
    ensures StopsInTime(if found then repositories + [p] else repositories, scanned + {p})
  {
    assert p in queue;
    forall q | q in scanned ensures PathBelow(q, p) {}
  }

  lemma ScanKeepsLayers(queue: seq<Path>, scanned: set<Path>, names: seq<Name>)
    requires Layered(queue, scanned) && queue != []
    ensures Layered(queue[1..] + Extend(queue[0], names), scanned + {queue[0]})
  {
  }

  /** A directory at the depth limit still had something below it. */
  ghost predicate CutOff(tree: Tree, scanned: set<Path>) {
    exists p :: p in scanned && |p| >= MAX_DISCOVERY_DEPTH && HasChild(tree, p)
  }

  ghost predicate Collected(tree: Tree, repositories: seq<Path>, scanned: set<Path>) {
    && Distinct(repositories)
    && forall p :: p in repositories <==> p in scanned && Eligible(tree, p)
  }

  function Extend(p: Path, names: seq<Name>): (children: seq<Path>)
    ensures |children| == |names|
  {
    seq(|names|, i requires 0 <= i < |names| => p + [names[i]])
  }

  lemma ExtendMembers(p: Path, names: seq<Name>, q: Path)
    ensures q in Extend(p, names) <==> |q| == |p| + 1 && q[..|p|] == p && q[|p|] in names
  {
    if q in Extend(p, names) {
      var i :| 0 <= i < |names| && Extend(p, names)[i] == q;
      assert q[..|p|] == p;
    }
    if |q| == |p| + 1 && q[..|p|] == p && q[|p|] in names {
      var i :| 0 <= i < |names| && names[i] == q[|p|];
      assert q == p + [names[i]];
      assert Extend(p, names)[i] == q;
    }
  }

  lemma PopKeepsFrontier(tree: Tree, queue: seq<Path>, scanned: set<Path>)
    requires |queue| > 0 && Frontier(tree, queue, scanned)
    ensures Frontier(tree, queue[1..], scanned + {queue[0]})
  {
    var p, rest, done := queue[0], queue[1..], scanned + {queue[0]};
    assert p in queue;
    forall q | q in rest ensures q in queue && q != p {
      var i :| 0 <= i < |rest| && rest[i] == q;
      assert queue[i + 1] == q;
    }
    forall q | q in queue ensures q == p || q in rest {
      var i :| 0 <= i < |queue| && queue[i] == q;
      assert i > 0 ==> rest[i - 1] == q;
    }
    forall q | q in rest || q in done ensures ParentScanned(done, q) {
      assert ParentScanned(scanned, q);
    }
  }

  /** Queueing the children of the directory just scanned. */
  lemma PushKeepsFrontier(tree: Tree, queue: seq<Path>, scanned: set<Path>, p: Path, names: seq<Name>)
    requires queue != [] && p == queue[0] && Frontier(tree, queue, scanned)
    requires |p| < MAX_DISCOVERY_DEPTH && Descends(tree, p)
    requires forall n :: n in names ==> Enterable(tree, p, n)
    requires forall i, j :: 0 <= i < j < |names| ==> names[i] != names[j]
    ensures Frontier(tree, queue[1..] + Extend(p, names), scanned + {p})
  {
    var children, rest, done := Extend(p, names), queue[1..], scanned + {p};
    assert p in queue;
    PopKeepsFrontier(tree, queue, scanned);
    forall q | q in children
      ensures Visible(tree, q) && q !in rest && q !in done && q != [] && q[..|q| - 1] == p && |q| == |p| + 1
    {
      ExtendMembers(p, names, q);
      VisibleChild(tree, p, q[|p|]);
      assert q == p + [q[|p|]] && q[..|q| - 1] == p;
      assert q in queue || q in scanned ==> ParentScanned(scanned, q);
      assert q in rest ==> q in queue;
    }
    forall i, j | 0 <= i < j < |children| ensures children[i] != children[j] {
      assert children[i][|p|] == names[i] && children[j][|p|] == names[j];
    }
    forall q | q in rest + children || q in done ensures ParentScanned(done, q) {
      if q !in children {
        assert q in rest || q in done ==> ParentScanned(done, q);
      }
    }
  }

  /** If nothing was cut off, everything visible was scanned. */
  lemma {:induction false} CompleteScan(tree: Tree, scanned: set<Path>, p: Path)
    requires Frontier(tree, [], scanned) && Expanded(tree, [], scanned) && !CutOff(tree, scanned)
    requires Visible(tree, p)
    ensures p in scanned
    decreases |p|
  {
    if p != [] {
      var parent, name := p[..|p| - 1], p[|p| - 1];
      assert Descends(tree, p[..|p| - 1]) && Enterable(tree, p[..|p| - 1], p[|p| - 1]);
      forall k | 0 <= k < |parent| ensures Descends(tree, parent[..k]) && Enterable(tree, parent[..k], parent[k]) {
        assert parent[..k] == p[..k];
      }
      CompleteScan(tree, scanned, parent);
      assert HasChild(tree, parent);
      assert p == parent + [name];
    }
  }

  lemma CutOffIffUnscanned(tree: Tree, scanned: set<Path>)
    requires Frontier(tree, [], scanned) && Expanded(tree, [], scanned)
    ensures CutOff(tree, scanned) <==> exists p :: Visible(tree, p) && p !in scanned
  {
    if CutOff(tree, scanned) {
      var p :| p in scanned && |p| >= MAX_DISCOVERY_DEPTH && HasChild(tree, p);
      var n :| Enterable(tree, p, n);
      VisibleChild(tree, p, n);
      assert p + [n] !in scanned;
    } else {
      forall p | Visible(tree, p) ensures p in scanned {
        CompleteScan(tree, scanned, p);
      }
    }
  }

  ghost predicate LoopInvariant(tree: Tree, queue: seq<Path>, scanned: set<Path>, repositories: seq<Path>,
                                truncated: bool) {
    && Frontier(tree, queue, scanned) && Expanded(tree, queue, scanned) && Collected(tree, repositories, scanned)
    && (truncated <==> CutOff(tree, scanned)) && Layered(queue, scanned)
    && InOrder(queue, scanned) && StopsInTime(repositories, scanned)
  }

  /** One directory: a repository, children to queue, or something below the depth limit. */
  method ScanDirectory(tree: Tree, p: Path) returns (names: seq<Name>, below: bool)
    ensures below <==> |p| >= MAX_DISCOVERY_DEPTH && HasChild(tree, p)
    ensures |p| < MAX_DISCOVERY_DEPTH && Descends(tree, p) ==> forall n :: n in names <==> Enterable(tree, p, n)
    ensures !(|p| < MAX_DISCOVERY_DEPTH && Descends(tree, p)) ==> names == []
    ensures forall i, j :: 0 <= i < j < |names| ==> names[i] != names[j] && TextBelow(names[i], names[j])
  {
    names, below := [], false;
    if Descends(tree, p) {
      var listed := ListChildren(tree, p);
      if |p| >= MAX_DISCOVERY_DEPTH {
        below := listed != [];
        assert below ==> Enterable(tree, p, listed[0]);
      } else {
        names := listed;
      }
    }
  }

  lemma ScanKeepsFrontier(tree: Tree, queue: seq<Path>, scanned: set<Path>, p: Path, names: seq<Name>)
    requires queue != [] && p == queue[0] && Frontier(tree, queue, scanned) && Expanded(tree, queue, scanned)
    requires |p| < MAX_DISCOVERY_DEPTH && Descends(tree, p) ==> forall n :: n in names <==> Enterable(tree, p, n)
    requires !(|p| < MAX_DISCOVERY_DEPTH && Descends(tree, p)) ==> names == []
    requires forall i, j :: 0 <= i < j < |names| ==> names[i] != names[j]
    ensures p !in scanned && Frontier(tree, queue[1..] + Extend(p, names), scanned + {p})
            && Expanded(tree, queue[1..] + Extend(p, names), scanned + {p})
  {
    assert p in queue;
    if |p| < MAX_DISCOVERY_DEPTH && Descends(tree, p) {
      PushKeepsFrontier(tree, queue, scanned, p, names);
      ExpandChildren(tree, queue, scanned, p, names);
    } else {
      PopKeepsFrontier(tree, queue, scanned);
      assert queue[1..] + Extend(p, names) == queue[1..];
      assert queue == [p] + queue[1..];
    }
  }

  lemma ScanKeepsCollected(tree: Tree, p: Path, scanned: set<Path>, repositories: seq<Path>)
    requires Collected(tree, repositories, scanned) && p !in scanned
    ensures Collected(tree, if Eligible(tree, p) then repositories + [p] else repositories, scanned + {p})
  {
  }

  lemma ScanKeepsInvariant(tree: Tree, queue: seq<Path>, scanned: set<Path>, repositories: seq<Path>, truncated: bool,
                           p: Path, names: seq<Name>, below: bool)
    requires queue != [] && p == queue[0] && LoopInvariant(tree, queue, scanned, repositories, truncated)
    requires |repositories| < MAX_REPOSITORIES
    requires below <==> |p| >= MAX_DISCOVERY_DEPTH && HasChild(tree, p)
    requires |p| < MAX_DISCOVERY_DEPTH && Descends(tree, p) ==> forall n :: n in names <==> Enterable(tree, p, n)
    requires !(|p| < MAX_DISCOVERY_DEPTH && Descends(tree, p)) ==> names == []
    requires forall i, j :: 0 <= i < j < |names| ==> names[i] != names[j] && TextBelow(names[i], names[j])
    ensures |scanned + {p}| == |scanned| + 1
    ensures LoopInvariant(tree, queue[1..] + Extend(p, names), scanned + {p},
                          if Eligible(tree, p) then repositories + [p] else repositories, truncated || below)
  {
    ScanKeepsFrontier(tree, queue, scanned, p, names);
    ScanKeepsCollected(tree, p, scanned, repositories);
    ScanKeepsLayers(queue, scanned, names);
    ScanKeepsOrder(tree, queue, scanned, names);
    ScanStopsInTime(queue, scanned, repositories, p, Eligible(tree, p));
    if |p| < MAX_DISCOVERY_DEPTH {
      ScanAbove(tree, scanned, p);
    } else {
      ScanAtLimit(tree, scanned, p, below);
    }
  }

  lemma StartsInvariant(tree: Tree)
    ensures LoopInvariant(tree, [[]], {}, [], false)
  {
  }

  ghost predicate Outcome(tree: Tree, repositories: seq<Path>, truncated: bool, scanned: set<Path>) {
    && Distinct(repositories)
    && (forall p :: p in scanned ==> Visible(tree, p))
    && (forall p :: p in repositories <==> p in scanned && Eligible(tree, p))
    && (truncated <==> exists p :: Visible(tree, p) && p !in scanned)
    && ScannedInOrder(tree, scanned) && StopsInTime(repositories, scanned)
    && (|scanned| < MAX_SCANNED_DIRECTORIES && |repositories| < MAX_REPOSITORIES ==> Exhaustive(tree, scanned))
  }

  /** Breadth-first and by name: whatever is visible and comes earlier has been scanned as well. */
  ghost predicate ScannedInOrder(tree: Tree, scanned: set<Path>) {
    forall p, q :: q in scanned && Visible(tree, p) && PathBelow(p, q) ==> p in scanned
  }

  ghost predicate Exhaustive(tree: Tree, scanned: set<Path>) {
    forall q :: Visible(tree, q) && |q| <= MAX_DISCOVERY_DEPTH ==> q in scanned
  }

  lemma StoppingIsTruncation(tree: Tree, queue: seq<Path>, scanned: set<Path>, repositories: seq<Path>, truncated: bool)
    requires LoopInvariant(tree, queue, scanned, repositories, truncated) && queue != []
    requires |scanned| >= MAX_SCANNED_DIRECTORIES || |repositories| >= MAX_REPOSITORIES
    ensures Outcome(tree, repositories, true, scanned)
  {
    forall p, q | q in scanned && Visible(tree, p) && PathBelow(p, q) ensures p in scanned {
      EarlierIsScanned(tree, queue, scanned, p, q);
    }
    assert queue[0] in queue && Visible(tree, queue[0]) && queue[0] !in scanned;
  }

  lemma FinishingIsExact(tree: Tree, scanned: set<Path>, repositories: seq<Path>, truncated: bool)
    requires LoopInvariant(tree, [], scanned, repositories, truncated)
    ensures Outcome(tree, repositories, truncated, scanned)
  {
    CutOffIffUnscanned(tree, scanned);
    forall p, q | q in scanned && Visible(tree, p) && PathBelow(p, q) ensures p in scanned {
      EarlierIsScanned(tree, [], scanned, p, q);
    }
    forall q | Visible(tree, q) && |q| <= MAX_DISCOVERY_DEPTH ensures q in scanned {
      if q !in scanned {
        var a := QueuedAbove(tree, [], scanned, q);
      }
    }
  }

  /** The scan itself. `truncated` is set exactly when some visible directory was not scanned. */
  method Discover(tree: Tree) returns (repositories: seq<Path>, truncated: bool, ghost scanned: set<Path>)
    ensures |scanned| <= 512 && |repositories| <= 32 && forall p :: p in scanned ==> |p| <= 4
    ensures Outcome(tree, repositories, truncated, scanned)
  {
    repositories, truncated, scanned := [], false, {};
    StartsInvariant(tree);
    var queue: seq<Path> := [[]];
    var count := 0;
    while queue != []
      invariant count == |scanned| <= MAX_SCANNED_DIRECTORIES && |repositories| <= MAX_REPOSITORIES
      invariant LoopInvariant(tree, queue, scanned, repositories, truncated)
      decreases MAX_SCANNED_DIRECTORIES - count
    {
      if count >= MAX_SCANNED_DIRECTORIES || |repositories| >= MAX_REPOSITORIES {
        StoppingIsTruncation(tree, queue, scanned, repositories, truncated);
        truncated := true;
        return;
      }
      count := count + 1;
      repositories, truncated, queue, scanned := ScanNext(tree, queue, repositories, truncated, scanned);
    }
    FinishingIsExact(tree, scanned, repositories, truncated);
  }

  /** The loop body: take the front of the queue, record it or queue what is below it. */
  method ScanNext(tree: Tree, queue: seq<Path>, repositories: seq<Path>, truncated: bool, ghost scanned: set<Path>)
    returns (repositories': seq<Path>, truncated': bool, queue': seq<Path>, ghost scanned': set<Path>)
    requires queue != [] && LoopInvariant(tree, queue, scanned, repositories, truncated)
    requires |repositories| < MAX_REPOSITORIES
    ensures LoopInvariant(tree, queue', scanned', repositories', truncated')
    ensures scanned' == scanned + {queue[0]} && |scanned'| == |scanned| + 1 && |repositories'| <= |repositories| + 1
  {
    var p := queue[0];
    var names, below := ScanDirectory(tree, p);
    ScanKeepsInvariant(tree, queue, scanned, repositories, truncated, p, names, below);
    repositories' := if Eligible(tree, p) then repositories + [p] else repositories;
    truncated' := truncated || below;
    queue' := queue[1..] + Extend(p, names);
    scanned' := scanned + {p};
  }

  /** None of the returned repositories lies inside another. */
  lemma DiscoveredAreNotNested(tree: Tree, repositories: seq<Path>, truncated: bool, scanned: set<Path>, p: Path,
                               q: Path)
    requires Outcome(tree, repositories, truncated, scanned)
    requires p in repositories && q in repositories
    ensures p <= q ==> p == q
  {
    VisibleRepositoriesAreNotNested(tree, p, q);
  }

  /** A complete discovery returns every visible repository at any depth, so a single result is
      the only one there is. */
  lemma CompleteDiscoveryFindsAll(tree: Tree, repositories: seq<Path>, scanned: set<Path>, only: Path)
    requires Outcome(tree, repositories, false, scanned)
    requires repositories == [only]
    ensures forall p :: Visible(tree, p) && Eligible(tree, p) <==> p == only
  {
  }

  lemma ScanAtLimit(tree: Tree, before: set<Path>, p: Path, below: bool)
    requires |p| >= MAX_DISCOVERY_DEPTH && (below <==> HasChild(tree, p))
    ensures CutOff(tree, before + {p}) <==> CutOff(tree, before) || below
  {
  }

  lemma ScanAbove(tree: Tree, before: set<Path>, p: Path)
    requires |p| < MAX_DISCOVERY_DEPTH
    ensures CutOff(tree, before + {p}) <==> CutOff(tree, before)
  {
  }

  lemma ExpandChildren(tree: Tree, queue: seq<Path>, before: set<Path>, p: Path, names: seq<Name>)
    requires |queue| > 0 && queue[0] == p && Expanded(tree, queue, before)
    requires forall n :: n in names <==> Enterable(tree, p, n)
    ensures Expanded(tree, queue[1..] + Extend(p, names), before + {p})
  {
    forall q, n | q in before + {p} && |q| < MAX_DISCOVERY_DEPTH && Descends(tree, q) && Enterable(tree, q, n)
      ensures q + [n] in queue[1..] + Extend(p, names) || q + [n] in before + {p}
    {
      if q == p {
        assert (p + [n])[..|p|] == p;
        ExtendMembers(p, names, p + [n]);
      } else {
        assert queue == [p] + queue[1..];
      }
    }
  }

  // ---- What is visible, and which directories are scanned ----

  /** Visible means: every directory on the way down, from the root to just above the path, exists, can
      be read and is no repository, and every step leads to a real directory with no ignored name. */
  lemma VisibleReadsTheTree(tree: Tree, p: Path)
    ensures Visible(tree, p) <==>
            forall k :: 0 <= k < |p| ==>
              && p[..k] in tree && tree[p[..k]].Directory? && tree[p[..k]].readable && !tree[p[..k]].eligible
              && p[..k] + [p[k]] in tree && tree[p[..k] + [p[k]]].Directory?
              && p[k] != ".git" && p[k] != ".xpressclaw" && p[k] != "node_modules"
              && p[k] != "target" && p[k] != ".venv" && p[k] != "__pycache__"
  {
    assert forall k :: 0 <= k < |p| ==> (Descends(tree, p[..k]) <==>
             p[..k] in tree && tree[p[..k]].Directory? && tree[p[..k]].readable && !tree[p[..k]].eligible);
  }

  /** The repositories returned are the scanned directories at which a repository was found. */
  lemma FoundReadsTheTree(tree: Tree, repositories: seq<Path>, truncated: bool, scanned: set<Path>, p: Path)
    requires Outcome(tree, repositories, truncated, scanned)
    ensures p in repositories <==> p in scanned && p in tree && tree[p].Directory? && tree[p].eligible
  {
  }

  /** A scan that met neither the limit of 512 directories nor that of 32 repositories went through
      everything visible down to the fourth level. */
  lemma UnhinderedScanIsExhaustive(tree: Tree, repositories: seq<Path>, truncated: bool, scanned: set<Path>, p: Path)
    requires Outcome(tree, repositories, truncated, scanned) && |scanned| < 512 && |repositories| < 32
    requires Visible(tree, p) && |p| <= 4
    ensures p in scanned
  {
  }

  lemma ScannedSetsAreNested(tree: Tree, a: set<Path>, b: set<Path>)
    requires ScannedInOrder(tree, a) && ScannedInOrder(tree, b)
    requires forall p :: p in a || p in b ==> Visible(tree, p)
    ensures a <= b || b <= a
  {
    if p, q :| p in a && p !in b && q in b && q !in a {
      PathBelowTotal(p, q);
    }
  }

  lemma {:induction false} DistinctCount(s: seq<Path>)
    requires Distinct(s)
    ensures |Items(s)| == |s|
  {
    if s != [] {
      var init, last := s[..|s| - 1], s[|s| - 1];
      DistinctCount(init);
      assert s == init + [last];
      assert last !in init && Items(s) == Items(init) + {last};
    }
  }

  lemma EqualBySize(a: set<Path>, b: set<Path>)
    requires a <= b && |b| <= |a|
    ensures a == b
  {
    assert |b - a| == |b| - |a|;
  }

  /** The smaller of two scans of one tree is not smaller. */
  lemma NoScanStopsEarly(tree: Tree, repositories: seq<Path>, truncated: bool, scanned: set<Path>,
                         repositories': seq<Path>, truncated': bool, scanned': set<Path>)
    requires Outcome(tree, repositories, truncated, scanned) && Outcome(tree, repositories', truncated', scanned')
    requires |scanned'| <= MAX_SCANNED_DIRECTORIES && |repositories'| <= MAX_REPOSITORIES
    requires forall p :: p in scanned' ==> |p| <= MAX_DISCOVERY_DEPTH
    requires scanned <= scanned'
    ensures scanned == scanned'
  {
    if |scanned| >= MAX_SCANNED_DIRECTORIES {
      EqualBySize(scanned, scanned');
    } else if |repositories| >= MAX_REPOSITORIES {
      FullScansAgree(tree, repositories, truncated, scanned, repositories', truncated', scanned');
    } else {
      forall p | p in scanned' ensures p in scanned {
        assert Visible(tree, p);
      }
    }
  }

  lemma FullScansAgree(tree: Tree, repositories: seq<Path>, truncated: bool, scanned: set<Path>,
                       repositories': seq<Path>, truncated': bool, scanned': set<Path>)
    requires Outcome(tree, repositories, truncated, scanned) && Outcome(tree, repositories', truncated', scanned')
    requires |repositories'| <= MAX_REPOSITORIES <= |repositories| && scanned <= scanned'
    ensures scanned == scanned'
  {
    DistinctCount(repositories);
    DistinctCount(repositories');
    assert Items(repositories) <= Items(repositories');
    EqualBySize(Items(repositories), Items(repositories'));
    assert |repositories'| == |Items(repositories)| >= MAX_REPOSITORIES;
    var last := repositories'[|repositories'| - 1];
    assert last in Items(repositories') && last in scanned;
    forall p | p in scanned' ensures p in scanned {
      assert p == last || PathBelow(p, last);
    }
  }

  /** Which directories are scanned, which repositories are found and whether the scan was cut short are
      determined by the tree, also when a limit stops it. */
  lemma DiscoveryIsDetermined(tree: Tree, repositories: seq<Path>, truncated: bool, scanned: set<Path>,
                              repositories': seq<Path>, truncated': bool, scanned': set<Path>)
    requires Outcome(tree, repositories, truncated, scanned) && Outcome(tree, repositories', truncated', scanned')
    requires |scanned| <= 512 && |repositories| <= 32 && |scanned'| <= 512 && |repositories'| <= 32
    requires forall p :: p in scanned || p in scanned' ==> |p| <= 4
    ensures scanned == scanned' && truncated == truncated'
    ensures forall p :: p in repositories <==> p in repositories'
  {
    ScannedSetsAreNested(tree, scanned, scanned');
    if scanned <= scanned' {
      NoScanStopsEarly(tree, repositories, truncated, scanned, repositories', truncated', scanned');
    } else {
      NoScanStopsEarly(tree, repositories', truncated', scanned', repositories, truncated, scanned);
    }
  }
}

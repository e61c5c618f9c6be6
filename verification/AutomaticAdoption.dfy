/** Where discovery meets selection: what adopting the single discovered repository means. */
module AutomaticAdoption {
  import opened Options
  import Discovery = RepositoryDiscovery
  import Selection = RepositorySelection

  /** What a directory entry can be called. */
  predicate FileName(name: Discovery.Name) {
    name != "" && name != "." && '/' !in name
  }

  ghost predicate FileNames(p: Discovery.Path) {
    forall i :: 0 <= i < |p| ==> FileName(p[i])
  }

  function Joined(p: Discovery.Path): string
    requires p != []
  {
    if |p| == 1 then p[0] else p[0] + "/" + Joined(p[1..])
  }

  /** How a candidate's location is stored: "." for the root, else its names joined by "/". */
  function RelativePath(p: Discovery.Path): Selection.Path {
    if p == [] then Selection.ROOT else Joined(p)
  }

  /** A joined path starts with its first name, which a separator ends unless it is the only one. */
  lemma FirstName(p: Discovery.Path)
    requires p != []
    ensures |p[0]| <= |Joined(p)| && Joined(p)[..|p[0]|] == p[0]
    ensures |p| == 1 <==> |Joined(p)| == |p[0]|
    ensures |p| > 1 ==> Joined(p)[|p[0]|] == '/' && Joined(p)[|p[0]| + 1..] == Joined(p[1..])
  {
    if |p| > 1 {
      assert Joined(p) == p[0] + "/" + Joined(p[1..]);
    }
  }

  lemma SameFirstName(p: Discovery.Path, q: Discovery.Path)
    requires p != [] && q != [] && FileNames(p) && FileNames(q) && Joined(p) == Joined(q)
    ensures |p[0]| >= |q[0]|
  {
    FirstName(p);
    FirstName(q);
  }

  lemma {:induction false} JoinedIsInjective(p: Discovery.Path, q: Discovery.Path)
    requires p != [] && q != [] && FileNames(p) && FileNames(q) && Joined(p) == Joined(q)
    ensures p == q
  {
    SameFirstName(p, q);
    SameFirstName(q, p);
    FirstName(p);
    FirstName(q);
    if |p| > 1 && |q| > 1 {
      JoinedIsInjective(p[1..], q[1..]);
    }
    assert p == [p[0]] + p[1..] && q == [q[0]] + q[1..];
  }

  /** Different directories are stored under different paths. */
  lemma RelativePathIsInjective(p: Discovery.Path, q: Discovery.Path)
    requires FileNames(p) && FileNames(q) && RelativePath(p) == RelativePath(q)
    ensures p == q
  {
    if p != [] && q != [] {
      JoinedIsInjective(p, q);
    } else if p != [] {
      RootIsNoJoin(p);
    } else if q != [] {
      RootIsNoJoin(q);
    }
  }

  lemma RootIsNoJoin(p: Discovery.Path)
    requires p != [] && FileNames(p)
    ensures Joined(p) != Selection.ROOT
  {
    FirstName(p);
    assert FileName(p[0]);
    if |p| > 1 {
      assert |Joined(p)| > |p[0]| >= 1;
    }
  }

  lemma SinglePath(repositories: seq<Discovery.Path>, only: Discovery.Path)
    requires Discovery.Distinct(repositories) && only in repositories
    requires forall p :: p in repositories ==> FileNames(p) && RelativePath(p) == RelativePath(only)
    ensures repositories == [only]
  {
    assert |repositories| < 2 || repositories[0] != repositories[1];
    forall i | 0 <= i < |repositories| ensures repositories[i] == only {
      RelativePathIsInjective(repositories[i], only);
    }
  }

  /** If the candidate taken automatically is not the workspace root, discovery was complete and
      the candidate is the only visible repository of the whole workspace, at any depth. */
  lemma AdoptedIsTheOnlyRepository(tree: Discovery.Tree, repositories: seq<Discovery.Path>,
                                   scanned: set<Discovery.Path>,
                                   ws: Selection.Workspace, adopted: Selection.Candidate)
    requires ws.Workspace? && Selection.WellFormed(ws) && forall p :: p in tree ==> FileNames(p)
    requires Discovery.Outcome(tree, repositories, ws.truncated, scanned)
    requires ws.discovered == set p | p in repositories :: RelativePath(p)
    requires Selection.AutomaticCandidate(Selection.CandidatesFor(ws, None), ws.truncated) == Some(adopted)
    requires adopted.path != Selection.ROOT
    ensures !ws.truncated
    ensures exists only :: RelativePath(only) == adopted.path &&
              forall p :: Discovery.Visible(tree, p) && Discovery.Eligible(tree, p) <==> p == only
  {
    assert Selection.CandidatesFor(ws, None).Keys == ws.discovered == {adopted.path};
    var only :| only in repositories && RelativePath(only) == adopted.path;
    forall p | p in repositories ensures FileNames(p) && RelativePath(p) == adopted.path {
      assert RelativePath(p) in ws.discovered && Discovery.Eligible(tree, p);
    }
    SinglePath(repositories, only);
    Discovery.CompleteDiscoveryFindsAll(tree, repositories, scanned, only);
  }
}

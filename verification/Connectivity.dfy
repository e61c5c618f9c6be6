/** Reachability along undirected links: the equivalence closure of a set of pairs. */
module Connectivity {

  ghost predicate Linked<T>(links: set<(T, T)>, a: T, b: T) {
    (a, b) in links || (b, a) in links
  }

  ghost predicate Path<T>(links: set<(T, T)>, p: seq<T>) {
    && |p| > 0
    && forall i :: 0 <= i < |p| - 1 ==> Linked(links, p[i], p[i + 1])
  }

  /** Two nodes are connected when some path of links joins them. */
  ghost predicate Connected<T(!new)>(links: set<(T, T)>, a: T, b: T) {
    exists p :: Path(links, p) && p[0] == a && p[|p| - 1] == b
  }

  lemma LinkConnects<T(!new)>(links: set<(T, T)>, a: T, b: T)
    requires a == b || Linked(links, a, b)
    ensures Connected(links, a, b)
  {
    var p := if a == b then [a] else [a, b];
    assert Path(links, p) && p[0] == a && p[|p| - 1] == b;
  }

  lemma ConnectedTransitive<T(!new)>(links: set<(T, T)>, a: T, b: T, c: T)
    requires Connected(links, a, b) && Connected(links, b, c)
    ensures Connected(links, a, c)
  {
    var p :| Path(links, p) && p[0] == a && p[|p| - 1] == b;
    var q :| Path(links, q) && q[0] == b && q[|q| - 1] == c;
    var r := p + q[1..];
    forall i | 0 <= i < |r| - 1
      ensures Linked(links, r[i], r[i + 1])
    {
      if i >= |p| - 1 {
        assert r[i] == q[i - (|p| - 1)] && r[i + 1] == q[i - (|p| - 1) + 1];
      }
    }
    assert Path(links, r) && r[0] == a && r[|r| - 1] == c;
  }

  lemma ConnectedSymmetric<T(!new)>(links: set<(T, T)>, a: T, b: T)
    requires Connected(links, a, b)
    ensures Connected(links, b, a)
  {
    var p :| Path(links, p) && p[0] == a && p[|p| - 1] == b;
    var r := seq(|p|, i requires 0 <= i < |p| => p[|p| - 1 - i]);
    forall i | 0 <= i < |r| - 1
      ensures Linked(links, r[i], r[i + 1])
    {
      assert Linked(links, p[|p| - 2 - i], p[|p| - 2 - i + 1]);
    }
    assert Path(links, r) && r[0] == b && r[|r| - 1] == a;
  }

  /** A labelling that never changes across a link is constant on every component. */
  lemma LabelsAreConstant<T(!new), L>(links: set<(T, T)>, mark: T -> L, a: T, b: T)
    requires forall e :: e in links ==> mark(e.0) == mark(e.1)
    requires Connected(links, a, b)
    ensures mark(a) == mark(b)
  {
    var p :| Path(links, p) && p[0] == a && p[|p| - 1] == b;
    var i := 0;
    while i < |p| - 1
      invariant 0 <= i < |p|
      invariant mark(p[i]) == mark(a)
    {
      assert Linked(links, p[i], p[i + 1]);
      i := i + 1;
    }
  }

  /** If `f` sends every link of one graph to a connected pair of another, it sends every
      connected pair to a connected pair. */
  lemma ConnectednessTransports<T(!new), U(!new)>(links: set<(T, T)>, links': set<(U, U)>, f: T -> U, a: T, b: T)
    requires forall e :: e in links ==> Connected(links', f(e.0), f(e.1))
    requires Connected(links, a, b)
    ensures Connected(links', f(a), f(b))
  {
    var p :| Path(links, p) && p[0] == a && p[|p| - 1] == b;
    var i := 0;
    LinkConnects(links', f(a), f(a));
    while i < |p| - 1
      invariant 0 <= i < |p|
      invariant Connected(links', f(a), f(p[i]))
    {
      assert Linked(links, p[i], p[i + 1]);
      if (p[i], p[i + 1]) !in links {
        assert (p[i + 1], p[i]) in links;
        ConnectedSymmetric(links', f(p[i + 1]), f(p[i]));
      }
      ConnectedTransitive(links', f(a), f(p[i]), f(p[i + 1]));
      i := i + 1;
    }
  }

  lemma ConnectedMonotone<T(!new)>(links: set<(T, T)>, links': set<(T, T)>, a: T, b: T)
    requires links <= links'
    requires Connected(links, a, b)
    ensures Connected(links', a, b)
  {
  }
}

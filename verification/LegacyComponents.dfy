/** The array union-find of the legacy Project migration: path compression, union by rank,
    one-byte ranks. The ghost fields record the edges unioned so far and each node's root. */
module LegacyComponents {
  import opened Connectivity

  newtype u8 = x: int | 0 <= x < 256

  const USIZE_LIMIT: nat := 0x1_0000_0000_0000_0000

  ghost function Pow2(n: nat): nat {
    if n == 0 then 1 else 2 * Pow2(n - 1)
  }

  lemma {:induction false} Pow2Monotone(m: nat, n: nat)
    requires m <= n
    ensures Pow2(m) <= Pow2(n)
    decreases n - m
  {
    if m < n {
      Pow2Monotone(m + 1, n);
    }
  }

  lemma {:induction false} Pow2Sum(m: nat, n: nat)
    ensures Pow2(m + n) == Pow2(m) * Pow2(n)
  {
    if m > 0 {
      Pow2Sum(m - 1, n);
    }
  }

  lemma Pow2Of64()
    ensures Pow2(64) == USIZE_LIMIT
  {
    assert Pow2(8) == 256;
    Pow2Sum(8, 8);
    assert Pow2(16) == 0x1_0000;
    Pow2Sum(16, 16);
    assert Pow2(32) == 0x1_0000_0000;
    Pow2Sum(32, 32);
  }

  /** The nodes whose root is `r`. */
  ghost function Class(roots: seq<nat>, r: nat): set<nat> {
    set i: nat | i < |roots| && roots[i] == r
  }

  /** A node's links: its parent and root share its root, and ranks grow strictly upwards. */
  ghost predicate WellLinked(parents: seq<nat>, ranks: seq<u8>, roots: seq<nat>, i: nat)
    requires |parents| == |ranks| == |roots| && i < |parents|
  {
    && parents[i] < |parents| && roots[i] < |parents|
    && roots[parents[i]] == roots[i] && roots[roots[i]] == roots[i]
    && (parents[i] == i <==> roots[i] == i)
    && (parents[i] != i ==> ranks[i] < ranks[parents[i]] && ranks[i] < ranks[roots[i]])
  }

  ghost predicate Forest(parents: seq<nat>, ranks: seq<u8>, roots: seq<nat>) {
    && |parents| == |ranks| == |roots|
    && forall i: nat :: i < |parents| ==> WellLinked(parents, ranks, roots, i)
  }

  /** A root of rank k has at least 2^k nodes under it. */
  ghost predicate Balanced(ranks: seq<u8>, roots: seq<nat>) {
    && |ranks| == |roots|
    && forall r :: 0 <= r < |roots| && roots[r] == r ==> Pow2(ranks[r] as nat) <= |Class(roots, r)|
  }

  /** The roots name exactly the components of `edges`. */
  ghost predicate Partition(roots: seq<nat>, edges: set<(nat, nat)>) {
    && (forall e :: e in edges ==> e.0 < |roots| && e.1 < |roots| && roots[e.0] == roots[e.1])
    && (forall i: nat :: i < |roots| ==> Connected(edges, i, roots[i]))
  }

  /** `find(a) == find(b)` exactly when the unioned edges connect a and b. */
  lemma SameRootIffConnected(roots: seq<nat>, edges: set<(nat, nat)>, a: nat, b: nat)
    requires Partition(roots, edges)
    requires a < |roots| && b < |roots|
    ensures roots[a] == roots[b] <==> Connected(edges, a, b)
  {
    if roots[a] == roots[b] {
      ConnectedSymmetric(edges, b, roots[b]);
      ConnectedTransitive(edges, a, roots[a], b);
    }
    if Connected(edges, a, b) {
      LabelsAreConstant(edges, (i: nat) => if i < |roots| then roots[i] else i, a, b);
    }
  }

  /** Path compression: re-pointing a node at its own root keeps the forest and its roots. */
  lemma CompressKeepsForest(parents: seq<nat>, ranks: seq<u8>, roots: seq<nat>, node: nat)
    requires Forest(parents, ranks, roots)
    requires node < |parents|
    ensures roots[node] < |parents| && Forest(parents[node := roots[node]], ranks, roots)
  {
    var parents' := parents[node := roots[node]];
    assert WellLinked(parents, ranks, roots, node);
    forall i: nat | i < |parents|
      ensures WellLinked(parents', ranks, roots, i)
    {
      assert WellLinked(parents, ranks, roots, i);
    }
  }

  ghost function MergedRoots(roots: seq<nat>, winner: nat, loser: nat): (merged: seq<nat>)
    ensures |merged| == |roots|
  {
    seq(|roots|, i requires 0 <= i < |roots| => if roots[i] == loser then winner else roots[i])
  }

  ghost predicate LinkedRanks(ranks: seq<u8>, winner: nat, loser: nat, ranks': seq<u8>)
    requires winner < |ranks| && loser < |ranks|
  {
    && ranks[winner] >= ranks[loser]
    && |ranks'| == |ranks|
    && (forall i :: 0 <= i < |ranks| && i != winner ==> ranks'[i] == ranks[i])
    && ranks'[winner] as int == ranks[winner] as int + (if ranks[winner] == ranks[loser] then 1 else 0)
  }

  /** Hanging the lower-ranked root under the other one keeps the forest. */
  lemma LinkKeepsForest(parents: seq<nat>, ranks: seq<u8>, roots: seq<nat>, winner: nat, loser: nat, ranks': seq<u8>)
    requires Forest(parents, ranks, roots)
    requires winner < |parents| && loser < |parents| && winner != loser
    requires roots[winner] == winner && roots[loser] == loser
    requires LinkedRanks(ranks, winner, loser, ranks')
    ensures Forest(parents[loser := winner], ranks', MergedRoots(roots, winner, loser))
  {
    var parents', roots' := parents[loser := winner], MergedRoots(roots, winner, loser);
    forall i: nat | i < |parents|
      ensures WellLinked(parents', ranks', roots', i)
    {
      assert WellLinked(parents, ranks, roots, i);
      assert WellLinked(parents, ranks, roots, loser) && WellLinked(parents, ranks, roots, winner);
    }
  }

  /** Union by rank keeps every root of rank k above at least 2^k nodes. */
  lemma LinkKeepsBalance(ranks: seq<u8>, roots: seq<nat>, winner: nat, loser: nat, ranks': seq<u8>)
    requires Balanced(ranks, roots)
    requires winner < |roots| && loser < |roots| && winner != loser
    requires roots[winner] == winner && roots[loser] == loser
    requires LinkedRanks(ranks, winner, loser, ranks')
    ensures Balanced(ranks', MergedRoots(roots, winner, loser))
  {
    var roots' := MergedRoots(roots, winner, loser);
    forall r: nat | r < |roots| && roots'[r] == r
      ensures Pow2(ranks'[r] as nat) <= |Class(roots', r)|
    {
      if r == winner {
        assert Class(roots', winner) == Class(roots, winner) + Class(roots, loser);
        assert Class(roots, winner) !! Class(roots, loser);
        assert Pow2(ranks[winner] as nat) <= |Class(roots, winner)|;
        assert Pow2(ranks[loser] as nat) <= |Class(roots, loser)|;
      } else {
        assert r != loser;
        assert Class(roots', r) == Class(roots, r);
      }
    }
  }

  /** Merging two classes is exactly adding an edge between members of them. */
  lemma LinkKeepsPartition(roots: seq<nat>, edges: set<(nat, nat)>, left: nat, right: nat, winner: nat, loser: nat)
    requires Partition(roots, edges)
    requires left < |roots| && right < |roots| && winner < |roots| && loser < |roots|
    requires (winner == roots[left] && loser == roots[right]) || (winner == roots[right] && loser == roots[left])
    ensures Partition(MergedRoots(roots, winner, loser), edges + {(left, right)})
  {
    var roots', edges' := MergedRoots(roots, winner, loser), edges + {(left, right)};
    LinkConnects(edges', left, right);
    ConnectedMonotone(edges, edges', left, roots[left]);
    ConnectedMonotone(edges, edges', right, roots[right]);
    ConnectedSymmetric(edges', left, roots[left]);
    ConnectedTransitive(edges', roots[left], left, right);
    ConnectedTransitive(edges', roots[left], right, roots[right]);
    ConnectedSymmetric(edges', roots[left], roots[right]);
    forall i: nat | i < |roots|
      ensures Connected(edges', i, roots'[i])
    {
      ConnectedMonotone(edges, edges', i, roots[i]);
      if roots[i] == loser {
        ConnectedTransitive(edges', i, loser, winner);
      }
    }
  }

  /** An edge inside one class changes nothing. */
  lemma InternalEdgeKeepsPartition(roots: seq<nat>, edges: set<(nat, nat)>, left: nat, right: nat)
    requires Partition(roots, edges)
    requires left < |roots| && right < |roots| && roots[left] == roots[right]
    ensures Partition(roots, edges + {(left, right)})
  {
  }

  lemma ClassFits(roots: seq<nat>, r: nat)
    ensures |Class(roots, r)| <= |roots|
  {
    BelowSize(Class(roots, r), |roots|);
  }

  lemma {:induction false} BelowSize(s: set<nat>, n: nat)
    requires forall i :: i in s ==> i < n
    ensures |s| <= n
  {
    if n == 0 {
      assert s == {};
    } else {
      BelowSize(s - {n - 1}, n - 1);
    }
  }

  /** A rank never reaches 64, so the one-byte increment cannot overflow. */
  lemma RankBelow64(ranks: seq<u8>, roots: seq<nat>, r: nat)
    requires Balanced(ranks, roots)
    requires |roots| < USIZE_LIMIT
    requires r < |roots| && roots[r] == r
    ensures ranks[r] < 64
  {
    ClassFits(roots, r);
    if ranks[r] >= 64 {
      Pow2Monotone(64, ranks[r] as nat);
      Pow2Of64();
    }
  }

  /** The number of links `find` follows from a node. */
  ghost function Depth(parents: seq<nat>, ranks: seq<u8>, roots: seq<nat>, node: nat): nat
    requires Forest(parents, ranks, roots)
    requires node < |parents|
    decreases 255 - ranks[node] as int
  {
    assert WellLinked(parents, ranks, roots, node);
    if parents[node] == node then 0 else 1 + Depth(parents, ranks, roots, parents[node])
  }

  lemma {:induction false} DepthWithinRank(parents: seq<nat>, ranks: seq<u8>, roots: seq<nat>, node: nat)
    requires Forest(parents, ranks, roots)
    requires node < |parents|
    ensures roots[node] < |parents|
    ensures Depth(parents, ranks, roots, node) + ranks[node] as nat <= ranks[roots[node]] as nat
    decreases 255 - ranks[node] as int
  {
    assert WellLinked(parents, ranks, roots, node);
    if parents[node] != node {
      DepthWithinRank(parents, ranks, roots, parents[node]);
    }
  }

  /** `find` recurses at most log2(n) deep. */
  lemma DepthIsLogarithmic(parents: seq<nat>, ranks: seq<u8>, roots: seq<nat>, node: nat)
    requires Forest(parents, ranks, roots) && Balanced(ranks, roots)
    requires node < |parents|
    ensures Pow2(Depth(parents, ranks, roots, node)) <= |parents|
  {
    var root := roots[node];
    DepthWithinRank(parents, ranks, roots, node);
    Pow2Monotone(Depth(parents, ranks, roots, node), ranks[root] as nat);
    assert WellLinked(parents, ranks, roots, node);
    ClassFits(roots, root);
  }

  lemma {:induction false} ChainWithinDepth(parents: seq<nat>, ranks: seq<u8>, roots: seq<nat>, chain: seq<nat>)
    requires Forest(parents, ranks, roots) && chain != [] && forall i :: 0 <= i < |chain| ==> chain[i] < |parents|
    requires forall i :: 0 <= i < |chain| - 1 ==> chain[i + 1] == parents[chain[i]] && chain[i + 1] != chain[i]
    ensures |chain| - 1 <= Depth(parents, ranks, roots, chain[0])
  {
    if |chain| > 1 {
      assert WellLinked(parents, ranks, roots, chain[0]);
      ChainWithinDepth(parents, ranks, roots, chain[1..]);
    }
  }

  /** Following parent links from any node, a root is met within log2(n) links. */
  lemma ChainsAreShort(parents: seq<nat>, ranks: seq<u8>, roots: seq<nat>, chain: seq<nat>)
    requires Forest(parents, ranks, roots) && Balanced(ranks, roots)
    requires chain != [] && forall i :: 0 <= i < |chain| ==> chain[i] < |parents|
    requires forall i :: 0 <= i < |chain| - 1 ==> chain[i + 1] == parents[chain[i]] && chain[i + 1] != chain[i]
    ensures Pow2(|chain| - 1) <= |parents|
  {
    ChainWithinDepth(parents, ranks, roots, chain);
    DepthIsLogarithmic(parents, ranks, roots, chain[0]);
    Pow2Monotone(|chain| - 1, Depth(parents, ranks, roots, chain[0]));
  }

  class Components {
    const parents: array<nat>
    const ranks: array<u8>
    ghost var roots: seq<nat>
    ghost var edges: set<(nat, nat)>

    ghost predicate Valid()
      reads this, parents, ranks
    {
      && parents as object != ranks
      && parents.Length < USIZE_LIMIT
      && Forest(parents[..], ranks[..], roots)
      && Balanced(ranks[..], roots)
      && Partition(roots, edges)
    }

    /** `new`: every node is its own component. */
    constructor (nodeCount: nat)
      requires nodeCount < USIZE_LIMIT
      ensures Valid() && fresh(parents) && fresh(ranks)
      ensures |roots| == nodeCount && edges == {}
    {
      parents := new nat[nodeCount](i => i);
      ranks := new u8[nodeCount](i => 0);
      roots := seq(nodeCount, (i: nat) => i);
      edges := {};
      new;
      forall i: nat | i < |roots|
        ensures Connected(edges, i, roots[i])
      {
        LinkConnects(edges, i, i);
      }
      forall r: nat | r < |roots| && roots[r] == r
        ensures Pow2(ranks[..][r] as nat) <= |Class(roots, r)|
      {
        assert Class(roots, r) == {r};
      }
    }

    /** `find`: the root, with every node on the way re-pointed at it. */
    method Find(node: nat) returns (root: nat)
      requires Valid() && node < |roots|
      modifies parents
      ensures Valid()
      ensures root == roots[node] && parents[node] == root
      ensures forall other: nat :: other < |roots| ==> (roots[other] == root <==> Connected(edges, node, other))
      ensures forall i :: 0 <= i < |roots| ==> parents[i] == old(parents[i]) || parents[i] == roots[i]
      decreases 255 - ranks[node] as int
    {
      var parent := parents[node];
      assert WellLinked(parents[..], ranks[..], roots, node);
      if parent != node {
        var r := Find(parent);
        CompressKeepsForest(parents[..], ranks[..], roots, node);
        ghost var before := parents[..];
        parents[node] := r;
        assert parents[..] == before[node := roots[node]];
      }
      root := parents[node];
      forall other: nat | other < |roots|
        ensures roots[other] == root <==> Connected(edges, node, other)
      {
        SameRootIffConnected(roots, edges, node, other);
      }
    }

    /** `union`: the components of exactly one more edge. */
    method Union(left: nat, right: nat)
      requires Valid() && left < |roots| && right < |roots|
      modifies this, parents, ranks
      ensures Valid() && |roots| == old(|roots|)
      ensures edges == old(edges) + {(left, right)}
    {
      var leftRoot := Find(left);
      var rightRoot := Find(right);
      if leftRoot == rightRoot {
        InternalEdgeKeepsPartition(roots, edges, left, right);
        edges := edges + {(left, right)};
        return;
      }
      ghost var parents0, ranks0, roots0 := parents[..], ranks[..], roots;
      assert WellLinked(parents0, ranks0, roots0, left) && WellLinked(parents0, ranks0, roots0, right);
      if ranks[leftRoot] < ranks[rightRoot] {
        leftRoot, rightRoot := rightRoot, leftRoot;
      }
      RankBelow64(ranks[..], roots, leftRoot);
      parents[rightRoot] := leftRoot;
      if ranks[leftRoot] == ranks[rightRoot] {
        ranks[leftRoot] := ranks[leftRoot] + 1;
      }
      LinkKeepsForest(parents0, ranks0, roots0, leftRoot, rightRoot, ranks[..]);
      LinkKeepsBalance(ranks0, roots0, leftRoot, rightRoot, ranks[..]);
      LinkKeepsPartition(roots0, edges, left, right, leftRoot, rightRoot);
      assert parents[..] == parents0[rightRoot := leftRoot];
      roots := MergedRoots(roots, leftRoot, rightRoot);
      edges := edges + {(left, right)};
    }
  }
}

/** Paths in the service graph, whose nodes are named by their functions. */
module GraphPaths {

  type Edge = (string, string)

  type Rank = string -> nat

  ghost predicate IsPath(edges: set<Edge>, p: seq<string>, a: string, b: string) {
    |p| > 0 && p[0] == a && p[|p| - 1] == b && forall i :: 0 <= i < |p| - 1 ==> (p[i], p[i + 1]) in edges
  }

  ghost predicate Reach(edges: set<Edge>, a: string, b: string) {
    exists p :: IsPath(edges, p, a, b)
  }

  /** The graph is acyclic: ranks fall along every edge. */
  ghost predicate Ranked(edges: set<Edge>, rank: Rank) {
    forall a, b :: (a, b) in edges ==> rank(a) > rank(b)
  }

  /** What the root reaches is acyclic. */
  ghost predicate RankedBelow(edges: set<Edge>, root: string, rank: Rank) {
    forall a, b :: (a, b) in edges && Reach(edges, root, a) ==> rank(a) > rank(b)
  }

  lemma RankedBelowStep(edges: set<Edge>, root: string, c: string, rank: Rank)
    requires RankedBelow(edges, root, rank) && (root, c) in edges
    ensures RankedBelow(edges, c, rank) && rank(root) > rank(c)
  {
    ReachSelf(edges, root);
    forall a, b | (a, b) in edges && Reach(edges, c, a)
      ensures rank(a) > rank(b)
    {
      ReachFirst(edges, root, c, a);
    }
  }

  function Endpoints(edges: set<Edge>): set<string> {
    (set e | e in edges :: e.0) + (set e | e in edges :: e.1)
  }

  ghost predicate NoOut(edges: set<Edge>, a: string) {
    forall e :: e in edges ==> e.0 != a
  }

  ghost predicate NoIn(edges: set<Edge>, a: string) {
    forall e :: e in edges ==> e.1 != a
  }

  lemma ReachSelf(edges: set<Edge>, a: string)
    ensures Reach(edges, a, a)
  {
    assert IsPath(edges, [a], a, a);
  }

  lemma ReachFirst(edges: set<Edge>, a: string, c: string, b: string)
    requires (a, c) in edges && Reach(edges, c, b)
    ensures Reach(edges, a, b)
  {
    var p :| IsPath(edges, p, c, b);
    var q := [a] + p;
    forall i | 0 <= i < |q| - 1
      ensures (q[i], q[i + 1]) in edges
    {
      assert i > 0 ==> q[i] == p[i - 1] && q[i + 1] == p[i];
    }
    assert IsPath(edges, q, a, b);
  }

  lemma ReachLast(edges: set<Edge>, a: string, c: string, b: string)
    requires Reach(edges, a, c) && (c, b) in edges
    ensures Reach(edges, a, b)
  {
    var p :| IsPath(edges, p, a, c);
    assert IsPath(edges, p + [b], a, b);
  }

  lemma ReachSplit(edges: set<Edge>, a: string, b: string) returns (c: string)
    requires Reach(edges, a, b)
    ensures a == b || ((a, c) in edges && Reach(edges, c, b))
  {
    var p :| IsPath(edges, p, a, b);
    c := a;
    if |p| > 1 {
      c := p[1];
      forall i | 0 <= i < |p[1..]| - 1
        ensures (p[1..][i], p[1..][i + 1]) in edges
      {
        assert p[1..][i] == p[i + 1] && p[1..][i + 1] == p[i + 2];
      }
      assert IsPath(edges, p[1..], c, b);
    }
  }

  lemma ReachMore(edges: set<Edge>, more: set<Edge>, a: string, b: string)
    requires Reach(edges, a, b) && edges <= more
    ensures Reach(more, a, b)
  {
    var p :| IsPath(edges, p, a, b);
    assert IsPath(more, p, a, b);
  }

  lemma {:induction false} PathTrans(edges: set<Edge>, p: seq<string>, a: string, c: string, b: string)
    requires IsPath(edges, p, a, c) && Reach(edges, c, b)
    ensures Reach(edges, a, b)
    decreases |p|
  {
    if |p| == 1 {
    } else {
      forall i | 0 <= i < |p[1..]| - 1
        ensures (p[1..][i], p[1..][i + 1]) in edges
      {
        assert p[1..][i] == p[i + 1] && p[1..][i + 1] == p[i + 2];
      }
      PathTrans(edges, p[1..], p[1], c, b);
      assert (p[0], p[1]) in edges;
      ReachFirst(edges, a, p[1], b);
    }
  }

  lemma ReachTrans(edges: set<Edge>, a: string, c: string, b: string)
    requires Reach(edges, a, c) && Reach(edges, c, b)
    ensures Reach(edges, a, b)
  {
    var p :| IsPath(edges, p, a, c);
    PathTrans(edges, p, a, c, b);
  }

  lemma EdgeEnds(edges: set<Edge>, a: string, b: string)
    requires (a, b) in edges
    ensures a in Endpoints(edges) && b in Endpoints(edges)
  {
    assert (a, b).0 == a && (a, b).1 == b;
  }

  lemma {:induction false} ReachStays(edges: set<Edge>, p: seq<string>, a: string, b: string)
    requires IsPath(edges, p, a, b)
    ensures b == a || b in Endpoints(edges)
  {
    if |p| > 1 {
      assert (p[|p| - 2], p[|p| - 2 + 1]) in edges;
      EdgeEnds(edges, p[|p| - 2], b);
    }
  }

  // ----- How deep a search goes -----

  /** No path from root has more than n nodes: a search that follows every
      edge calls itself no deeper than that. */
  ghost predicate DepthWithin(edges: set<Edge>, root: string, n: nat) {
    forall p, b :: IsPath(edges, p, root, b) ==> |p| <= n
  }

  lemma PathTail(edges: set<Edge>, p: seq<string>, a: string, b: string)
    requires IsPath(edges, p, a, b) && |p| > 1
    ensures (a, p[1]) in edges && IsPath(edges, p[1..], p[1], b)
  {
    assert (p[0], p[0 + 1]) in edges;
    forall i | 0 <= i < |p[1..]| - 1
      ensures (p[1..][i], p[1..][i + 1]) in edges
    {
      assert p[1..][i] == p[i + 1] && p[1..][i + 1] == p[i + 2];
    }
  }

  /** Ranks fall at least by one with each edge of a path. */
  lemma {:induction false} RankFalls(edges: set<Edge>, root: string, rank: Rank, p: seq<string>, b: string)
    requires RankedBelow(edges, root, rank) && IsPath(edges, p, root, b)
    ensures rank(root) >= rank(b) + |p| - 1
    decreases |p|
  {
    hide RankedBelow;
    if |p| == 1 {
    } else {
      PathTail(edges, p, root, b);
      RankedBelowStep(edges, root, p[1], rank);
      RankFalls(edges, p[1], rank, p[1..], b);
    }
  }

  ghost predicate HasPath(edges: set<Edge>, a: string, n: nat) {
    exists p, b :: IsPath(edges, p, a, b) && |p| == n
  }

  /** The most nodes, up to n, that a path from a has. */
  ghost function Longest(edges: set<Edge>, a: string, n: nat): (k: nat)
    ensures k <= n && (k > 0 ==> HasPath(edges, a, k))
    ensures forall j: nat :: j <= n && HasPath(edges, a, j) ==> j <= k
  {
    if n == 0 || HasPath(edges, a, n) then n else Longest(edges, a, n - 1)
  }

  lemma PathsJoin(edges: set<Edge>, p: seq<string>, q: seq<string>, root: string, a: string, b: string, c: string)
    requires IsPath(edges, p, root, a) && (a, b) in edges && IsPath(edges, q, b, c)
    ensures IsPath(edges, p + q, root, c)
  {
    var r := p + q;
    forall i | 0 <= i < |r| - 1
      ensures (r[i], r[i + 1]) in edges
    {
      assert i < |p| - 1 ==> r[i] == p[i] && r[i + 1] == p[i + 1];
      assert i == |p| - 1 ==> r[i] == a && r[i + 1] == b;
      assert i >= |p| ==> r[i] == q[i - |p|] && r[i + 1] == q[i - |p| + 1];
    }
  }

  lemma PathSizes(edges: set<Edge>, p: seq<string>, a: string, b: string)
    ensures IsPath(edges, p, a, b) ==> |p| > 0
    ensures IsPath(edges, [a], a, a) && IsPath(edges, [b], b, b)
  {
  }

  lemma LongestFalls(edges: set<Edge>, root: string, n: nat, a: string, b: string)
    requires DepthWithin(edges, root, n) && Reach(edges, root, a) && (a, b) in edges
    ensures Longest(edges, a, n) > Longest(edges, b, n)
  {
    hide IsPath;
    var p :| IsPath(edges, p, root, a);
    PathSizes(edges, p, root, a);
    PathSizes(edges, [b], b, b);
    var k := Longest(edges, b, n);
    PathsJoin(edges, p, [b], root, a, b, b);
    assert HasPath(edges, b, 1);
    var q, c :| IsPath(edges, q, b, c) && |q| == k;
    PathsJoin(edges, p, q, root, a, b, c);
    PathsJoin(edges, [a], q, a, a, b, c);
    assert HasPath(edges, a, k + 1);
  }

  /** A search along all edges from root ends, at whatever depth, exactly if
      ranks can be given that fall along every edge the root reaches. */
  lemma SearchEndsExactly(edges: set<Edge>, root: string)
    ensures (exists n: nat :: DepthWithin(edges, root, n)) <==> (exists rank: Rank :: RankedBelow(edges, root, rank))
  {
    if rank: Rank :| RankedBelow(edges, root, rank) {
      forall p, b | IsPath(edges, p, root, b)
        ensures |p| <= rank(root) + 1
      {
        RankFalls(edges, root, rank, p, b);
      }
      assert DepthWithin(edges, root, rank(root) + 1);
    }
    if n: nat :| DepthWithin(edges, root, n) {
      var rank: Rank := x => Longest(edges, x, n);
      forall a, b | (a, b) in edges && Reach(edges, root, a)
        ensures rank(a) > rank(b)
      {
        LongestFalls(edges, root, n, a, b);
      }
      assert RankedBelow(edges, root, rank);
    }
  }

  /** On a cycle below the root it does not end. */
  lemma CycleNeverEnds(edges: set<Edge>, root: string, p: seq<string>, a: string, n: nat)
    requires Reach(edges, root, a) && IsPath(edges, p, a, a) && |p| > 1
    ensures !DepthWithin(edges, root, n)
  {
    if DepthWithin(edges, root, n) {
      SearchEndsExactly(edges, root);
      var rank: Rank :| RankedBelow(edges, root, rank);
      forall x, y | (x, y) in edges && Reach(edges, a, x)
        ensures rank(x) > rank(y)
      {
        ReachTrans(edges, root, a, x);
      }
      RankFalls(edges, a, rank, p, a);
    }
  }

  // ----- Leaves -----

  /** The nodes without neighbours that can be reached from root. */
  ghost function LeavesFrom(edges: set<Edge>, root: string): set<string> {
    set l | l in Endpoints(edges) + {root} && Reach(edges, root, l) && NoOut(edges, l)
  }

  lemma LeafIn(edges: set<Edge>, root: string, l: string)
    ensures l in LeavesFrom(edges, root) <==> Reach(edges, root, l) && NoOut(edges, l)
  {
    if Reach(edges, root, l) {
      var p :| IsPath(edges, p, root, l);
      ReachStays(edges, p, root, l);
    }
  }

  /** The leaves below a node are those below its neighbours, or the node itself if it has none. */
  lemma LeavesStep(edges: set<Edge>, root: string, l: string)
    ensures l in LeavesFrom(edges, root) <==>
            if NoOut(edges, root) then l == root
            else exists c :: (root, c) in edges && l in LeavesFrom(edges, c)
  {
    LeafIn(edges, root, l);
    ReachSelf(edges, root);
    if NoOut(edges, root) {
      if Reach(edges, root, l) {
        var c := ReachSplit(edges, root, l);
        assert root == l || (root, c).0 == root;
      }
    } else {
      if Reach(edges, root, l) && NoOut(edges, l) {
        var c := ReachSplit(edges, root, l);
        LeafIn(edges, c, l);
      }
      if c :| (root, c) in edges && l in LeavesFrom(edges, c) {
        LeafIn(edges, c, l);
        ReachFirst(edges, root, c, l);
      }
    }
  }

  /** In an acyclic graph every node leads to a node without neighbours. */
  lemma {:induction false} SomeLeafBelow(edges: set<Edge>, rank: Rank, a: string) returns (l: string)
    requires Ranked(edges, rank)
    ensures Reach(edges, a, l) && NoOut(edges, l)
    decreases rank(a)
  {
    if NoOut(edges, a) {
      ReachSelf(edges, a);
      l := a;
    } else {
      var e :| e in edges && e.0 == a;
      assert e == (a, e.1);
      l := SomeLeafBelow(edges, rank, e.1);
      ReachFirst(edges, a, e.1, l);
    }
  }

  /** In an acyclic graph every node can be reached from a node without parents. */
  lemma {:induction false} SomeRootAbove(edges: set<Edge>, rank: Rank, a: string, above: set<string>) returns (r: string)
    requires Ranked(edges, rank)
    requires forall x :: x in Endpoints(edges) && rank(x) > rank(a) ==> x in above
    ensures Reach(edges, r, a) && NoIn(edges, r) && (r == a || r in Endpoints(edges))
    decreases |above|
  {
    if NoIn(edges, a) {
      ReachSelf(edges, a);
      r := a;
    } else {
      var e :| e in edges && e.1 == a;
      assert e == (e.0, a);
      EdgeEnds(edges, e.0, a);
      assert e.0 in above;
      r := SomeRootAbove(edges, rank, e.0, above - {e.0});
      ReachLast(edges, r, e.0, a);
    }
  }
}

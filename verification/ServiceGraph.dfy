/** The shape of the graph the orchestrator builds: order constraints, a
    first function before everything and a last one after everything. */
module ServiceGraph {
  import opened Packets
  import opened MergeSpec
  import opened GraphPaths

  function OrderEdges(order: seq<Edge>): set<Edge> {
    set i | 0 <= i < |order| :: order[i]
  }

  /** The nodes of the order constraints that have no parent. */
  function RootNodes(order: set<Edge>): set<string> {
    set r | r in Endpoints(order) && forall e :: e in order ==> e.1 != r
  }

  /** The order constraints have no cycle that a root reaches. */
  ghost predicate RankedFromRoots(order: set<Edge>, rank: Rank) {
    forall r :: r in RootNodes(order) ==> RankedBelow(order, r, rank)
  }

  ghost function LeafNodes(order: set<Edge>): set<string> {
    set r, l | r in RootNodes(order) && l in LeavesFrom(order, r) :: l
  }

  function EdgesFrom(a: string, nodes: set<string>): set<Edge> {
    set n | n in nodes :: (a, n)
  }

  function EdgesTo(nodes: set<string>, b: string): set<Edge> {
    set n | n in nodes :: (n, b)
  }

  /** The edges from the first node to the roots and the free-floating nodes. */
  ghost function FirstEdges(order: set<Edge>, priorities: set<string>, first: string): set<Edge> {
    EdgesFrom(first, RootNodes(order)) + EdgesFrom(first, priorities)
  }

  ghost function LastEdges(order: set<Edge>, priorities: set<string>, last: string): set<Edge> {
    EdgesTo(priorities, last) + EdgesTo(LeafNodes(order), last)
  }

  /** All edges of the finished graph. */
  ghost function ServiceEdges(order: set<Edge>, priorities: set<string>, first: Option<string>, last: Option<string>): set<Edge> {
    match first
    case None => order
    case Some(f) =>
      order + FirstEdges(order, priorities, f) + (if last.Some? then LastEdges(order, priorities, last.value) else {})
  }

  /** The functions that some constraint of the list names. */
  function Constrained(constraints: seq<Edge>): (names: set<string>)
    ensures forall n :: n in names <==> exists d :: d in constraints && (d.0 == n || d.1 == n)
  {
    var names := Endpoints(OrderEdges(constraints));
    assert forall d :: d in OrderEdges(constraints) <==> d in constraints;
    assert forall n :: n in names <==> exists d :: d in OrderEdges(constraints) && (d.0 == n || d.1 == n);
    names
  }

  /** The constraints name neither the first nor the last function. */
  ghost predicate ApartFrom(order: set<Edge>, priorities: set<string>, name: string) {
    name !in Endpoints(order) && name !in priorities
  }

  /** Ranks for the finished graph: first highest, last lowest. */
  function ServiceRank(rank: Rank, first: string, last: Option<string>, top: nat): Rank {
    x => if x == first then top + 2 else if last == Some(x) then 0 else rank(x) + 1
  }

  lemma {:induction false} RankBound(nodes: set<string>, rank: Rank) returns (top: nat)
    ensures forall x :: x in nodes ==> rank(x) <= top
  {
    top := 0;
    if nodes == {} {
    } else {
      var x := Pick(nodes);
      var rest := RankBound(nodes - {x}, rank);
      top := rest + rank(x);
    }
  }

  lemma EdgeKinds(order: set<Edge>, priorities: set<string>, first: string, last: Option<string>, a: string, b: string)
    requires (a, b) in ServiceEdges(order, priorities, Some(first), last)
    ensures (a, b) in order
            || (a == first && (b in Endpoints(order) || b in priorities))
            || (last == Some(b) && (a in Endpoints(order) || a in priorities))
  {
    if (a, b) !in order && a != first {
      assert last.Some? && (a, b) in LastEdges(order, priorities, last.value);
      if a !in priorities {
        var r :| r in RootNodes(order) && a in LeavesFrom(order, r);
        assert a in Endpoints(order) + {r};
      }
    }
  }

  /** The finished graph is acyclic if the order constraints are. */
  lemma ServiceGraphAcyclic(order: set<Edge>, priorities: set<string>, first: string, last: Option<string>, rank: Rank)
    returns (serviceRank: Rank)
    requires Ranked(order, rank) && ApartFrom(order, priorities, first) && last != Some(first)
    requires last.Some? ==> ApartFrom(order, priorities, last.value)
    ensures Ranked(ServiceEdges(order, priorities, Some(first), last), serviceRank)
  {
    var top := RankBound(Endpoints(order) + priorities, rank);
    serviceRank := ServiceRank(rank, first, last, top);
    forall a, b | (a, b) in ServiceEdges(order, priorities, Some(first), last)
      ensures serviceRank(a) > serviceRank(b)
    {
      EdgeKinds(order, priorities, first, last, a, b);
      if (a, b) in order {
        EdgeEnds(order, a, b);
      }
    }
  }

  /** Every function that a constraint names can be reached from the first one. */
  lemma ReachedFromFirst(order: set<Edge>, priorities: set<string>, first: string, last: Option<string>, rank: Rank, f: string)
    requires Ranked(order, rank) && (f in Endpoints(order) || f in priorities)
    ensures Reach(ServiceEdges(order, priorities, Some(first), last), first, f)
  {
    var edges := ServiceEdges(order, priorities, Some(first), last);
    if f in Endpoints(order) {
      var r := SomeRootAbove(order, rank, f, Endpoints(order));
      assert (first, r) in FirstEdges(order, priorities, first);
      ReachMore(order, edges, r, f);
      ReachFirst(edges, first, r, f);
    } else {
      assert (first, f) in FirstEdges(order, priorities, first);
      ReachSelf(edges, f);
      ReachFirst(edges, first, f, f);
    }
  }

  /** And it reaches the last one. */
  lemma ReachesLast(order: set<Edge>, priorities: set<string>, first: string, last: string, rank: Rank, f: string)
    requires Ranked(order, rank) && (f in Endpoints(order) || f in priorities)
    ensures Reach(ServiceEdges(order, priorities, Some(first), Some(last)), f, last)
  {
    var edges := ServiceEdges(order, priorities, Some(first), Some(last));
    var l := f;
    if f in Endpoints(order) {
      l := SomeLeafBelow(order, rank, f);
      var r := SomeRootAbove(order, rank, f, Endpoints(order));
      ReachTrans(order, r, f, l);
      LeafIn(order, r, l);
      assert l in LeafNodes(order);
      ReachMore(order, edges, f, l);
    } else {
      ReachSelf(edges, f);
    }
    assert (l, last) in LastEdges(order, priorities, last);
    ReachLast(edges, f, l, last);
  }

  lemma SomeConstrained(order: set<Edge>, priorities: set<string>)
    returns (f: string)
    requires order != {} || priorities != {}
    ensures f in Endpoints(order) || f in priorities
  {
    if order != {} {
      var e := Pick(order);
      EdgeEnds(order, e.0, e.1);
      f := e.0;
    } else {
      f := Pick(priorities);
    }
  }

  /** The shape of a service graph with a first and a last function that no
      constraint names, every other function being named by one: from the
      first function every node can be reached, from every node the last, and
      the last is the only leaf; unless there are no constraints at all, when
      the first and the last function are not connected. */
  lemma ServiceGraphShape(order: set<Edge>, priorities: set<string>, first: string, last: string, rank: Rank, f: string)
    requires Ranked(order, rank) && first != last
    requires ApartFrom(order, priorities, first) && ApartFrom(order, priorities, last)
    requires f == first || f == last || f in Endpoints(order) || f in priorities
    ensures var edges := ServiceEdges(order, priorities, Some(first), Some(last));
      && (order != {} || priorities != {} ==> Reach(edges, first, f) && Reach(edges, f, last) && (NoOut(edges, f) <==> f == last))
      && (order == {} && priorities == {} ==> edges == {})
  {
    var edges := ServiceEdges(order, priorities, Some(first), Some(last));
    if order != {} || priorities != {} {
      var c := SomeConstrained(order, priorities);
      ReachedFromFirst(order, priorities, first, Some(last), rank, c);
      ReachesLast(order, priorities, first, last, rank, c);
      ReachTrans(edges, first, c, last);
      ReachSelf(edges, first);
      ReachSelf(edges, last);
      if f != first && f != last {
        ReachedFromFirst(order, priorities, first, Some(last), rank, f);
        ReachesLast(order, priorities, first, last, rank, f);
      }
      if f != last {
        var n := ReachSplit(edges, f, last);
        assert (f, n) in edges && (f, n).0 == f;
      } else {
        LastHasNoOut(order, priorities, first, last);
      }
    } else {
      assert Endpoints(order) == {};
      assert RootNodes(order) == {} && LeafNodes(order) == {};
    }
  }

  lemma LastHasNoOut(order: set<Edge>, priorities: set<string>, first: string, last: string)
    requires first != last && ApartFrom(order, priorities, last)
    ensures NoOut(ServiceEdges(order, priorities, Some(first), Some(last)), last)
  {
    forall e | e in ServiceEdges(order, priorities, Some(first), Some(last))
      ensures e.0 != last
    {
      EdgeKinds(order, priorities, first, Some(last), e.0, e.1);
      if e in order {
        EdgeEnds(order, e.0, e.1);
      }
    }
  }
}

/** The finished graph and the recorded pairs, told from the constraints alone:
    which edges there are, where the first and the last function stand, and
    which pairs the merger is told of. */
module Construction {
  import opened Packets
  import opened MergeSpec
  import opened Parallelism
  import opened GraphPaths
  import opened ServiceGraph
  import F = FlatService
  import O = Orchestrator

  // ----- Constraints -----

  ghost predicate InTable(dependencies: seq<Edge>, priorities: seq<Edge>, rows: map<string, Row>) {
    forall d :: d in dependencies || d in priorities ==> d.0 in rows && d.1 in rows
  }

  /** The order constraints that rule out a parallel run. */
  ghost function Blocked(dependencies: seq<Edge>, rows: map<string, Row>): set<Edge>
    requires InTable(dependencies, [], rows)
  {
    set d | d in dependencies && !Parallelizable(rows[d.0], rows[d.1])
  }

  /** Some constraint that allows a parallel run names the function. */
  ghost predicate Kept(dependencies: seq<Edge>, priorities: seq<Edge>, rows: map<string, Row>, n: string)
    requires InTable(dependencies, priorities, rows)
  {
    exists d :: (d in dependencies || d in priorities) && Parallelizable(rows[d.0], rows[d.1]) && (d.0 == n || d.1 == n)
  }

  /** An edge leaves the node and none enters it. */
  ghost predicate IsRoot(edges: set<Edge>, n: string) {
    NoIn(edges, n) && !NoOut(edges, n)
  }

  /** No edge leaves the node, and some root reaches it. */
  ghost predicate IsLeaf(edges: set<Edge>, n: string) {
    NoOut(edges, n) && exists r :: IsRoot(edges, r) && Reach(edges, r, n)
  }

  lemma FewerInTable(dependencies: seq<Edge>, priorities: seq<Edge>, rows: map<string, Row>)
    requires InTable(dependencies, priorities, rows)
    ensures InTable(dependencies, [], rows)
  {
  }

  lemma ParsedOrder(dependencies: seq<Edge>, priorities: seq<Edge>, rows: map<string, Row>)
    requires InTable(dependencies, priorities, rows)
    ensures InTable(dependencies, [], rows)
    ensures OrderEdges(O.Filtered(dependencies, rows, false)) == Blocked(dependencies, rows)
  {
    hide Parallelizable, O.Filtered;
    forall d
      ensures d in OrderEdges(O.Filtered(dependencies, rows, false)) <==> d in Blocked(dependencies, rows)
    {
      O.FilteredIn(dependencies, rows, false, d);
      assert d in OrderEdges(O.Filtered(dependencies, rows, false)) <==> d in O.Filtered(dependencies, rows, false);
    }
  }

  lemma ParsedPriorities(dependencies: seq<Edge>, priorities: seq<Edge>, rows: map<string, Row>, n: string)
    requires InTable(dependencies, priorities, rows)
    ensures n in Constrained(O.Filtered(dependencies, rows, true) + O.Filtered(priorities, rows, true)) <==>
            Kept(dependencies, priorities, rows, n)
  {
    hide Parallelizable, O.Filtered;
    var kept := O.Filtered(dependencies, rows, true) + O.Filtered(priorities, rows, true);
    forall d: Edge
      ensures d in kept <==> (d in dependencies || d in priorities) && Parallelizable(rows[d.0], rows[d.1])
    {
      O.FilteredIn(dependencies, rows, true, d);
      O.FilteredIn(priorities, rows, true, d);
    }
  }

  lemma RootsAre(edges: set<Edge>, n: string)
    ensures n in RootNodes(edges) <==> IsRoot(edges, n)
  {
    if !NoOut(edges, n) {
      var e :| e in edges && e.0 == n;
      EdgeEnds(edges, e.0, e.1);
    }
  }

  lemma LeavesAre(edges: set<Edge>, n: string)
    ensures n in LeafNodes(edges) <==> IsLeaf(edges, n)
  {
    hide IsRoot, RootNodes, Reach, NoOut;
    forall r
      ensures r in RootNodes(edges) <==> IsRoot(edges, r)
      ensures n in LeavesFrom(edges, r) <==> Reach(edges, r, n) && NoOut(edges, n)
    {
      RootsAre(edges, r);
      LeafIn(edges, r, n);
    }
  }

  // ----- Positional entries -----

  /** One entry counts, and two that are for different places. */
  predicate Heeded(positionals: seq<O.Position>) {
    |positionals| == 1 || (|positionals| == 2 && positionals[0].1 != positionals[1].1)
  }

  /** The function at the place, if an entry that counts puts one there. */
  ghost predicate Placed(positionals: seq<O.Position>, place: string, holder: Option<string>) {
    match holder
    case None => Heeded(positionals) ==> forall f :: (f, place) !in positionals
    case Some(f) => Heeded(positionals) && (f, place) in positionals
  }

  lemma HolderOfFew(positionals: seq<O.Position>, place: string)
    requires 1 <= |positionals| <= 2
    ensures O.Holder(positionals, place) ==
            if |positionals| == 2 && positionals[1].1 == place then Some(positionals[1].0)
            else if positionals[0].1 == place then Some(positionals[0].0) else None
  {
    var one := positionals[..1];
    assert O.Holder(one, place) == if one[0].1 == place then Some(one[0].0) else None by {
      assert one[..0] == [];
    }
    if |positionals| == 1 {
      assert positionals == one;
    }
  }

  lemma HolderIsPlaced(positionals: seq<O.Position>, place: string)
    ensures Heeded(positionals) <==> O.HasPositionals(positionals)
    ensures Placed(positionals, place, if O.HasPositionals(positionals) then O.Holder(positionals, place) else None)
  {
    hide O.Holder;
    if O.HasPositionals(positionals) {
      HolderOfFew(positionals, place);
      assert forall p :: p in positionals <==> p == positionals[0] || (|positionals| == 2 && p == positionals[1]);
      assert forall p: O.Position :: p == (p.0, p.1);
    }
  }

  // ----- Edges -----

  /** The blocked order constraints are edges; the first function goes to the
      roots and to the functions of kept constraints, and these and the leaves
      go to the last one. There are no other edges. */
  ghost predicate EdgesDue(o: O.Orchestrator, dependencies: seq<Edge>, priorities: seq<Edge>, first: Option<string>,
                           last: Option<string>)
    reads o
    requires InTable(dependencies, priorities, o.actionTable) && InTable(dependencies, [], o.actionTable)
  {
    var order := Blocked(dependencies, o.actionTable);
    forall a, b :: (a, b) in o.Edges() <==>
      (a, b) in order
      || (first == Some(a) && (IsRoot(order, b) || Kept(dependencies, priorities, o.actionTable, b)))
      || (first.Some? && last == Some(b) && (IsLeaf(order, a) || Kept(dependencies, priorities, o.actionTable, a)))
  }

  lemma EdgesAreDue(order: set<Edge>, kept: set<string>, first: Option<string>, last: Option<string>, a: string, b: string)
    ensures (a, b) in ServiceEdges(order, kept, first, last) <==>
            (a, b) in order
            || (first == Some(a) && (IsRoot(order, b) || b in kept))
            || (first.Some? && last == Some(b) && (IsLeaf(order, a) || a in kept))
  {
    hide IsRoot, IsLeaf, RootNodes, LeafNodes;
    RootsAre(order, b);
    LeavesAre(order, a);
    if first.Some? {
      assert (a, b) in EdgesFrom(first.value, RootNodes(order)) <==> a == first.value && b in RootNodes(order);
      assert (a, b) in EdgesFrom(first.value, kept) <==> a == first.value && b in kept;
      if last.Some? {
        assert (a, b) in EdgesTo(LeafNodes(order), last.value) <==> b == last.value && a in LeafNodes(order);
        assert (a, b) in EdgesTo(kept, last.value) <==> b == last.value && a in kept;
      }
    }
  }

  // ----- Pairs -----

  /** Two functions are due to be recorded: they may run in parallel in this
      direction, and either a constraint says so on a field both touch, or both
      are in kept constraints, or one root reaches both and neither has an edge
      out. */
  ghost predicate PairDue(dependencies: seq<Edge>, priorities: seq<Edge>, rows: map<string, Row>, a: string, b: string)
    requires InTable(dependencies, priorities, rows) && InTable(dependencies, [], rows)
  {
    var order := Blocked(dependencies, rows);
    a in rows && b in rows && Parallelizable(rows[a], rows[b])
    && ((((a, b) in dependencies || (a, b) in priorities) && ConflictFields(rows[a], rows[b]) != [])
        || (a != b && Kept(dependencies, priorities, rows, a) && Kept(dependencies, priorities, rows, b))
        || (a != b && NoOut(order, a) && NoOut(order, b) && HaveRoot(order, a, b)))
  }

  /** Some node without edges in reaches both. */
  ghost predicate HaveRoot(edges: set<Edge>, a: string, b: string) {
    exists r :: NoIn(edges, r) && Reach(edges, r, a) && Reach(edges, r, b)
  }

  lemma SharedTree(order: set<Edge>, rows: map<string, Row>, a: string, b: string)
    requires forall n :: n in Endpoints(order) ==> n in rows
    ensures (exists r :: r in RootNodes(order) && O.SharesTree(order, rows, r, a, b)) <==>
            a in rows && b in rows && Parallelizable(rows[a], rows[b])
            && a != b && NoOut(order, a) && NoOut(order, b) && HaveRoot(order, a, b)
  {
    hide Parallelizable, Reach, NoOut, NoIn, LeavesFrom;
    if r :| r in RootNodes(order) && O.SharesTree(order, rows, r, a, b) {
      LeafIn(order, r, a);
      LeafIn(order, r, b);
      RootHasNoIn(order, r);
      LeavesInTable(order, rows, r);
      assert HaveRoot(order, a, b);
    }
    if a in rows && b in rows && Parallelizable(rows[a], rows[b])
       && a != b && NoOut(order, a) && NoOut(order, b) && HaveRoot(order, a, b) {
      var r :| NoIn(order, r) && Reach(order, r, a) && Reach(order, r, b);
      LeafIn(order, r, a);
      LeafIn(order, r, b);
      ReachesTwo(order, r, a, b);
      assert r in Endpoints(order) && a in LeavesFrom(order, r) && b in LeavesFrom(order, r);
      assert O.SharesTree(order, rows, r, a, b);
    }
  }

  lemma LeavesInTable(order: set<Edge>, rows: map<string, Row>, r: string)
    requires r in RootNodes(order) && forall n :: n in Endpoints(order) ==> n in rows
    ensures LeavesFrom(order, r) <= rows.Keys
  {
  }

  lemma RootHasNoIn(order: set<Edge>, r: string)
    requires r in RootNodes(order)
    ensures NoIn(order, r)
  {
  }

  /** A node that reaches two others, or itself and another, is of the graph. */
  lemma ReachesTwo(order: set<Edge>, r: string, a: string, b: string)
    requires NoIn(order, r) && Reach(order, r, a) && Reach(order, r, b) && a != b
    ensures r in RootNodes(order)
  {
    hide Reach;
    var other := if a == r then b else a;
    var c := ReachSplit(order, r, other);
    EdgeEnds(order, r, c);
  }

  lemma PairsAreDue(o: O.Orchestrator, dependencies: seq<Edge>, priorities: seq<Edge>, kept: set<string>, a: string, b: string)
    requires InTable(dependencies, priorities, o.actionTable) && InTable(dependencies, [], o.actionTable)
    requires forall n :: n in kept <==> Kept(dependencies, priorities, o.actionTable, n)
    requires forall n :: n in Endpoints(Blocked(dependencies, o.actionTable)) || n in kept ==> n in o.actionTable
    requires O.HasPair(o.pairToConflicts, a, b) <==>
             (((a, b) in dependencies || (a, b) in priorities) && o.Recorded(a, b))
             || O.OnOneLevel(Blocked(dependencies, o.actionTable), kept, o.actionTable, a, b)
    ensures O.HasPair(o.pairToConflicts, a, b) <==> PairDue(dependencies, priorities, o.actionTable, a, b)
  {
    hide Parallelizable, ConflictFields, Kept, NoOut, HaveRoot, O.SharesTree, O.HasPair, Blocked;
    SharedTree(Blocked(dependencies, o.actionTable), o.actionTable, a, b);
    if (a, b) in dependencies || (a, b) in priorities {
      assert (a, b).0 == a && (a, b).1 == b;
    }
  }

  // ----- Construction -----

  lemma KeptInTable(dependencies: seq<Edge>, priorities: seq<Edge>, rows: map<string, Row>, kept: set<string>)
    requires InTable(dependencies, priorities, rows) && InTable(dependencies, [], rows)
    requires forall n :: n in kept <==> Kept(dependencies, priorities, rows, n)
    ensures forall n :: n in Endpoints(Blocked(dependencies, rows)) || n in kept ==> n in rows
  {
    hide Parallelizable;
  }

  /** The orchestrator's construction from constraints and positional entries,
      whatever they are, as long as the blocked order constraints have no cycle
      that a root reaches. */
  method Construct(actionTable: map<string, Row>, functions: seq<string>, positionals: seq<O.Position>,
                   dependencies: seq<Edge>, priorities: seq<Edge>, ips: seq<string>, ghost rank: Rank)
    returns (o: O.Orchestrator, ghost first: Option<string>, ghost last: Option<string>)
    requires InTable(dependencies, priorities, actionTable) && InTable(dependencies, [], actionTable)
    requires forall d :: d in dependencies || d in priorities ==> O.Named(d, functions)
    requires RankedFromRoots(Blocked(dependencies, actionTable), rank)
    requires forall p :: p in positionals ==> p.0 in functions
    requires Heeded(positionals) && (dependencies != [] || priorities != []) ==> exists f :: (f, "first") in positionals
    requires functions != [] ==> ips != []
    ensures fresh(o) && o.actionTable == actionTable && o.Valid() && forall f :: f in o.neighbors <==> f in functions
    ensures Placed(positionals, "first", first) && Placed(positionals, "last", last)
    ensures EdgesDue(o, dependencies, priorities, first, last)
    ensures !Heeded(positionals) ==> o.Edges() == Blocked(dependencies, actionTable)
    ensures forall a, b :: O.HasPair(o.pairToConflicts, a, b) <==> PairDue(dependencies, priorities, actionTable, a, b)
    ensures o.FieldsKept()
    ensures o.Edges() == ServiceEdges(Blocked(dependencies, actionTable), Constrained(o.parsedPriorities), first, last)
    ensures forall n :: n in Constrained(o.parsedPriorities) <==> Kept(dependencies, priorities, actionTable, n)
  {
    hide *;
    ParsedOrder(dependencies, priorities, actionTable);
    HolderIsPlaced(positionals, "first");
    HolderIsPlaced(positionals, "last");
    first := if O.HasPositionals(positionals) then O.Holder(positionals, "first") else None;
    last := if O.HasPositionals(positionals) then O.Holder(positionals, "last") else None;
    StartMeans(positionals);
    SomePriority(dependencies, priorities, actionTable);
    AllInTable(dependencies, priorities, actionTable);
    o := new O.Orchestrator(actionTable, functions, positionals, dependencies, priorities, ips, rank);
    ghost var kept := Constrained(o.parsedPriorities);
    forall n
      ensures n in kept <==> Kept(dependencies, priorities, actionTable, n)
    {
      ParsedPriorities(dependencies, priorities, actionTable, n);
    }
    WithoutFirst(Blocked(dependencies, actionTable), kept, O.Holder(positionals, "last"), last);
    AllEdgesDue(o, dependencies, priorities, kept, first, last);
    KeptInTable(dependencies, priorities, actionTable, kept);
    forall a, b
      ensures O.HasPair(o.pairToConflicts, a, b) <==> PairDue(dependencies, priorities, actionTable, a, b)
    {
      PairsAreDue(o, dependencies, priorities, kept, a, b);
    }
  }

  lemma AllInTable(dependencies: seq<Edge>, priorities: seq<Edge>, rows: map<string, Row>)
    requires InTable(dependencies, priorities, rows)
    ensures forall d :: d in dependencies || d in priorities ==> d.0 in rows && d.1 in rows
  {
  }

  lemma StartMeans(positionals: seq<O.Position>)
    ensures O.Start(positionals) == if O.HasPositionals(positionals) then O.Holder(positionals, "first") else None
    ensures Heeded(positionals) && (exists f :: (f, "first") in positionals) ==> O.Start(positionals).Some?
  {
    HolderIsPlaced(positionals, "first");
  }

  lemma SomePriority(dependencies: seq<Edge>, priorities: seq<Edge>, rows: map<string, Row>)
    requires InTable(dependencies, priorities, rows)
    ensures forall d :: d in priorities ==> d.0 in rows && d.1 in rows
    ensures O.Filtered(priorities, rows, true) != [] ==> priorities != []
  {
  }

  /** Without a first function the last one is not attached either. */
  lemma WithoutFirst(order: set<Edge>, kept: set<string>, last: Option<string>, last': Option<string>)
    ensures ServiceEdges(order, kept, None, last) == ServiceEdges(order, kept, None, last') == order
  {
  }

  lemma AllEdgesDue(o: O.Orchestrator, dependencies: seq<Edge>, priorities: seq<Edge>, kept: set<string>, first: Option<string>,
                    last: Option<string>)
    requires InTable(dependencies, priorities, o.actionTable) && InTable(dependencies, [], o.actionTable)
    requires forall n :: n in kept <==> Kept(dependencies, priorities, o.actionTable, n)
    requires o.Edges() == ServiceEdges(Blocked(dependencies, o.actionTable), kept, first, last)
    ensures EdgesDue(o, dependencies, priorities, first, last)
  {
    hide ServiceEdges, Blocked, Kept, IsRoot, IsLeaf;
    forall a, b
      ensures (a, b) in o.Edges() <==>
              (a, b) in Blocked(dependencies, o.actionTable)
              || (first == Some(a) && (IsRoot(Blocked(dependencies, o.actionTable), b) || b in kept))
              || (first.Some? && last == Some(b) && (IsLeaf(Blocked(dependencies, o.actionTable), a) || a in kept))
    {
      EdgesAreDue(Blocked(dependencies, o.actionTable), kept, first, last, a, b);
    }
  }

  // ----- A first and a last function -----

  /** Some constraint of those that count names the function: an order
      constraint, or a priority that allows a parallel run. */
  ghost predicate Counts(dependencies: seq<Edge>, priorities: seq<Edge>, rows: map<string, Row>, n: string)
    requires InTable(dependencies, priorities, rows)
  {
    exists d :: (d in dependencies || (d in priorities && Parallelizable(rows[d.0], rows[d.1]))) && (d.0 == n || d.1 == n)
  }

  lemma CountsMeans(dependencies: seq<Edge>, priorities: seq<Edge>, rows: map<string, Row>, n: string)
    requires InTable(dependencies, priorities, rows) && InTable(dependencies, [], rows)
    ensures Counts(dependencies, priorities, rows, n) <==>
            n in Endpoints(Blocked(dependencies, rows)) || Kept(dependencies, priorities, rows, n)
  {
    hide Parallelizable;
    var order := Blocked(dependencies, rows);
    if d :| (d in dependencies || (d in priorities && Parallelizable(rows[d.0], rows[d.1]))) && (d.0 == n || d.1 == n) {
      if !Parallelizable(rows[d.0], rows[d.1]) {
        assert d in order && d == (d.0, d.1);
        EdgeEnds(order, d.0, d.1);
      }
    }
  }

  /** The function stands before all constrained ones, or after them. */
  ghost predicate Between(o: O.Orchestrator, dependencies: seq<Edge>, priorities: seq<Edge>, first: string, last: string)
    reads o
    requires InTable(dependencies, priorities, o.actionTable)
  {
    (forall n :: Counts(dependencies, priorities, o.actionTable, n) ==> Reach(o.Edges(), first, n) && Reach(o.Edges(), n, last))
    && ((exists n :: Counts(dependencies, priorities, o.actionTable, n)) ==>
          NoOut(o.Edges(), last) && !NoOut(o.Edges(), first)
          && forall n :: Counts(dependencies, priorities, o.actionTable, n) ==> !NoOut(o.Edges(), n))
  }

  lemma IsBetween(o: O.Orchestrator, dependencies: seq<Edge>, priorities: seq<Edge>, kept: set<string>, first: string,
                  last: string, rank: Rank)
    requires InTable(dependencies, priorities, o.actionTable) && InTable(dependencies, [], o.actionTable)
    requires forall n :: n in kept <==> Kept(dependencies, priorities, o.actionTable, n)
    requires Ranked(Blocked(dependencies, o.actionTable), rank) && first != last
    requires !Counts(dependencies, priorities, o.actionTable, first) && !Counts(dependencies, priorities, o.actionTable, last)
    requires o.Edges() == ServiceEdges(Blocked(dependencies, o.actionTable), kept, Some(first), Some(last))
    ensures Between(o, dependencies, priorities, first, last)
  {
    hide ServiceEdges, Blocked, Kept, Counts, Reach, NoOut, Endpoints, Ranked;
    var order := Blocked(dependencies, o.actionTable);
    forall n
      ensures Counts(dependencies, priorities, o.actionTable, n) <==> n in Endpoints(order) || n in kept
    {
      CountsMeans(dependencies, priorities, o.actionTable, n);
    }
    if n :| Counts(dependencies, priorities, o.actionTable, n) {
      Nonempty(order, kept, n);
      forall n | n == first || n == last || Counts(dependencies, priorities, o.actionTable, n)
        ensures Reach(o.Edges(), first, n) && Reach(o.Edges(), n, last) && (NoOut(o.Edges(), n) <==> n == last)
      {
        ServiceGraphShape(order, kept, first, last, rank, n);
      }
    }
  }

  lemma Nonempty(order: set<Edge>, kept: set<string>, n: string)
    requires n in Endpoints(order) || n in kept
    ensures order != {} || kept != {}
  {
  }

  /** An entry for each place, in whichever order they are given. */
  function BothPlaces(first: string, last: string, lastIsNamedFirst: bool): seq<O.Position> {
    if lastIsNamedFirst then [(last, "last"), (first, "first")] else [(first, "first"), (last, "last")]
  }

  lemma BothAreHeeded(first: string, last: string, lastIsNamedFirst: bool)
    ensures var positionals := BothPlaces(first, last, lastIsNamedFirst);
      Heeded(positionals) && (exists f :: (f, "first") in positionals)
      && (forall p :: p in positionals ==> p.0 == first || p.0 == last)
      && (forall h :: Placed(positionals, "first", h) ==> h == Some(first))
      && (forall h :: Placed(positionals, "last", h) ==> h == Some(last))
  {
    var positionals := BothPlaces(first, last, lastIsNamedFirst);
    assert |"first"| == 5 && |"last"| == 4;
    assert (first, "first") in positionals && (last, "last") in positionals;
    assert forall p :: p in positionals ==> p == (first, "first") || p == (last, "last");
  }

  /** With a first and a last function that no constraint names: every function
      that a counting constraint names lies between them, the last one alone
      has no edge out, and the first one's neighbours are the roots and the
      functions of kept constraints. */
  method OrchestrateBetween(actionTable: map<string, Row>, functions: seq<string>, first: string, last: string,
                            lastIsNamedFirst: bool, dependencies: seq<Edge>, priorities: seq<Edge>, ips: seq<string>,
                            ghost rank: Rank)
    returns (o: O.Orchestrator)
    requires InTable(dependencies, priorities, actionTable) && InTable(dependencies, [], actionTable)
    requires forall d :: d in dependencies || d in priorities ==> O.Named(d, functions)
    requires Ranked(Blocked(dependencies, actionTable), rank)
    requires first in functions && last in functions && first != last && ips != []
    requires forall d :: d in dependencies || d in priorities ==> d.0 !in {first, last} && d.1 !in {first, last}
    ensures fresh(o) && o.actionTable == actionTable && first in o.neighbors && Between(o, dependencies, priorities, first, last)
    ensures forall n :: n in o.neighbors[first] <==>
              IsRoot(Blocked(dependencies, actionTable), n) || Kept(dependencies, priorities, actionTable, n)
    ensures forall n :: (n, last) in o.Edges() <==>
              IsLeaf(Blocked(dependencies, actionTable), n) || Kept(dependencies, priorities, actionTable, n)
  {
    hide *;
    var positionals := BothPlaces(first, last, lastIsNamedFirst);
    BothAreHeeded(first, last, lastIsNamedFirst);
    RankedEverywhere(Blocked(dependencies, actionTable), rank);
    ghost var f, l;
    o, f, l := Construct(actionTable, functions, positionals, dependencies, priorities, ips, rank);
    NotCounting(dependencies, priorities, actionTable, first);
    NotCounting(dependencies, priorities, actionTable, last);
    IsBetween(o, dependencies, priorities, Constrained(o.parsedPriorities), first, last, rank);
    AtTheEnds(o, dependencies, priorities, first, last);
  }

  lemma RankedEverywhere(order: set<Edge>, rank: Rank)
    requires Ranked(order, rank)
    ensures RankedFromRoots(order, rank)
  {
  }

  lemma NotCounting(dependencies: seq<Edge>, priorities: seq<Edge>, rows: map<string, Row>, n: string)
    requires InTable(dependencies, priorities, rows)
    requires forall d :: d in dependencies || d in priorities ==> d.0 != n && d.1 != n
    ensures !Counts(dependencies, priorities, rows, n)
  {
    hide Parallelizable;
  }

  lemma AtTheEnds(o: O.Orchestrator, dependencies: seq<Edge>, priorities: seq<Edge>, first: string, last: string)
    requires InTable(dependencies, priorities, o.actionTable) && InTable(dependencies, [], o.actionTable) && first in o.neighbors
    requires EdgesDue(o, dependencies, priorities, Some(first), Some(last)) && first != last
    requires !Counts(dependencies, priorities, o.actionTable, first) && !Counts(dependencies, priorities, o.actionTable, last)
    ensures forall n :: n in o.neighbors[first] <==>
              IsRoot(Blocked(dependencies, o.actionTable), n) || Kept(dependencies, priorities, o.actionTable, n)
    ensures forall n :: (n, last) in o.Edges() <==>
              IsLeaf(Blocked(dependencies, o.actionTable), n) || Kept(dependencies, priorities, o.actionTable, n)
  {
    hide Parallelizable, Kept, Counts, IsRoot, IsLeaf, Blocked;
    var order := Blocked(dependencies, o.actionTable);
    CountsMeans(dependencies, priorities, o.actionTable, first);
    CountsMeans(dependencies, priorities, o.actionTable, last);
    forall n
      ensures (first, n) !in order && (n, last) !in order && !IsLeaf(order, first) && !IsRoot(order, last)
    {
      OutsideOrder(order, first, n);
      OutsideOrder(order, last, n);
    }
    forall n
      ensures n in o.neighbors[first] <==> (first, n) in o.Edges()
    {
      assert (first, n).0 == first && (first, n).1 == n;
    }
  }

  lemma OutsideOrder(order: set<Edge>, a: string, n: string)
    requires a !in Endpoints(order)
    ensures (a, n) !in order && (n, a) !in order && !IsRoot(order, a) && !IsLeaf(order, a)
  {
    if (a, n) in order {
      EdgeEnds(order, a, n);
    }
    if (n, a) in order {
      EdgeEnds(order, n, a);
    }
    if e :| e in order && e.0 == a {
      EdgeEnds(order, e.0, e.1);
    }
    if r :| IsRoot(order, r) && Reach(order, r, a) {
      var p :| IsPath(order, p, r, a);
      ReachStays(order, p, r, a);
    }
  }

  // ----- Two order trees -----

  /** Leaves of different order trees are not paired: of two blocked order
      constraints without a common function nothing is recorded, and the
      merger's list is empty, whatever the leaves' rows say. */
  method OrchestrateTwoTrees(actionTable: map<string, Row>, functions: seq<string>, x: string, a: string, y: string, b: string,
                             ips: seq<string>, ids: map<string, int>)
    returns (items: seq<ConflictItem>)
    requires F.NoneTwice([x, a, y, b]) && {x, a, y, b} <= actionTable.Keys && ips != []
    requires x in functions && a in functions && y in functions && b in functions && forall f :: f in functions ==> f in ids
    requires !Parallelizable(actionTable[x], actionTable[a]) && !Parallelizable(actionTable[y], actionTable[b])
    ensures items == []
  {
    hide *;
    var dependencies := [(x, a), (y, b)];
    ghost var rank: Rank := n => if n == x || n == y then 1 else 0;
    TwoTrees(actionTable, functions, x, a, y, b, rank);
    var o, _, _ := Construct(actionTable, functions, [], dependencies, [], ips, rank);
    forall u, w
      ensures !O.HasPair(o.pairToConflicts, u, w)
    {
      NotPaired(actionTable, x, a, y, b, u, w);
    }
    NothingRecorded(o);
    items := o.CreateConflictsList(ids);
    NothingToList(o, ids, items);
  }

  /** A major without any parent is listed at -1, which is nobody's number. */
  lemma WithoutParent(o: O.Orchestrator, ids: map<string, int>, items: seq<ConflictItem>, a: string, b: string)
    requires O.ConflictsListed(items, o.pairToConflicts, o.parents, ids) && O.HasPair(o.pairToConflicts, a, b)
    requires a in o.parents && o.parents[a] == {}
    ensures a in ids && b in ids && ConflictItem(ids[a], ids[b], -1) in items
  {
    hide O.NoRepeats, O.Grouped, O.HasPair;
    var pairs, parentOf :| O.ListsConflicts(items, pairs, o.pairToConflicts, o.parents, ids, parentOf);
    assert (a, b) in pairs;
    var i :| 0 <= i < |pairs| && pairs[i] == (a, b);
    assert O.ItemFor(items[i], pairs[i], ids, parentOf) && items[i] in items;
  }

  lemma FourNames(x: string, a: string, y: string, b: string)
    requires F.NoneTwice([x, a, y, b])
    ensures x != a && x != y && x != b && a != y && a != b && y != b
  {
    var s := [x, a, y, b];
    assert s[0] == x && s[1] == a && s[2] == y && s[3] == b;
  }

  lemma TwoTrees(rows: map<string, Row>, functions: seq<string>, x: string, a: string, y: string, b: string, rank: Rank)
    requires F.NoneTwice([x, a, y, b]) && {x, a, y, b} <= rows.Keys
    requires x in functions && a in functions && y in functions && b in functions
    requires !Parallelizable(rows[x], rows[a]) && !Parallelizable(rows[y], rows[b])
    requires rank == (n => if n == x || n == y then 1 else 0)
    ensures InTable([(x, a), (y, b)], [], rows) && Blocked([(x, a), (y, b)], rows) == {(x, a), (y, b)}
    ensures RankedFromRoots(Blocked([(x, a), (y, b)], rows), rank) && !Heeded([])
    ensures forall d :: d in [(x, a), (y, b)] || d in [] ==> O.Named(d, functions)
  {
    hide Parallelizable;
    FourNames(x, a, y, b);
    assert RankedFromRoots({(x, a), (y, b)}, rank);
  }

  lemma NotPaired(rows: map<string, Row>, x: string, a: string, y: string, b: string, u: string, w: string)
    requires F.NoneTwice([x, a, y, b]) && InTable([(x, a), (y, b)], [], rows)
    requires Blocked([(x, a), (y, b)], rows) == {(x, a), (y, b)}
    ensures !PairDue([(x, a), (y, b)], [], rows, u, w)
  {
    hide Parallelizable, ConflictFields, Reach;
    FourNames(x, a, y, b);
    var order: set<Edge> := {(x, a), (y, b)};
    assert (x, a) in order && (y, b) in order;
    assert (x, a) in Blocked([(x, a), (y, b)], rows) && (y, b) in Blocked([(x, a), (y, b)], rows);
    if u != w && NoOut(order, u) && NoOut(order, w) && HaveRoot(order, u, w) {
      var r :| NoIn(order, r) && Reach(order, r, u) && Reach(order, r, w);
      OneStep(x, a, y, b, r, u);
      OneStep(x, a, y, b, r, w);
    }
  }

  /** Of these two edges a path has at most one. */
  lemma OneStep(x: string, a: string, y: string, b: string, r: string, n: string)
    requires F.NoneTwice([x, a, y, b]) && NoIn({(x, a), (y, b)}, r) && Reach({(x, a), (y, b)}, r, n)
    ensures n == r || (r == x && n == a) || (r == y && n == b)
    ensures NoOut({(x, a), (y, b)}, n) ==> n != x && n != y
  {
    hide Reach;
    FourNames(x, a, y, b);
    var order: set<Edge> := {(x, a), (y, b)};
    assert (x, a) in order && (y, b) in order && (x, a).0 == x && (y, b).0 == y;
    var c := ReachSplit(order, r, n);
    if n != r {
      var d := ReachSplit(order, c, n);
    }
  }

  lemma NothingRecorded(o: O.Orchestrator)
    requires o.FieldsKept() && forall u, w :: !O.HasPair(o.pairToConflicts, u, w)
    ensures o.pairToConflicts == map[]
  {
    forall u
      ensures u !in o.pairToConflicts
    {
      if u in o.pairToConflicts {
        assert o.pairToConflicts[u].Keys != {};
        assert O.HasPair(o.pairToConflicts, u, Pick(o.pairToConflicts[u].Keys));
      }
    }
  }

  lemma NothingToList(o: O.Orchestrator, ids: map<string, int>, items: seq<ConflictItem>)
    requires o.pairToConflicts == map[] && O.ConflictsListed(items, o.pairToConflicts, o.parents, ids)
    ensures items == []
  {
    var pairs, parentOf :| O.ListsConflicts(items, pairs, o.pairToConflicts, o.parents, ids, parentOf);
    SomeMember(pairs);
    forall p: Edge
      ensures p !in pairs
    {
      assert p == (p.0, p.1);
    }
  }

  lemma SomeMember<T>(s: seq<T>)
    ensures s == [] || exists x :: x in s
  {
    assert |s| > 0 ==> s[0] in s;
  }
}

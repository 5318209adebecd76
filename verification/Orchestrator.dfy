/** The orchestrator.

    It splits the constraints into those that become edges and those that
    allow parallel runs, builds the service graph, finds its leaves and the
    pairs on each level, makes the conflict list for the merger, and places
    the functions on machines in turn. A graph node is known by its function's
    name. */
module Orchestrator {
  import opened Packets
  import opened MergeSpec
  import opened Parallelism
  import opened GraphPaths
  import opened ServiceGraph

  /** For a major function and a minor one, the fields they conflict on. */
  type ConflictMap = map<string, map<string, seq<Field>>>

  predicate HasPair(conflicts: ConflictMap, a: string, b: string) {
    a in conflicts && b in conflicts[a]
  }

  function SetPair(conflicts: ConflictMap, a: string, b: string, fields: seq<Field>): ConflictMap {
    conflicts[a := (if a in conflicts then conflicts[a] else map[])[b := fields]]
  }

  /** The constraints, in order, that do or do not allow parallel runs. */
  ghost function Filtered(deps: seq<Edge>, rows: map<string, Row>, parallel: bool): seq<Edge>
    requires forall d :: d in deps ==> d.0 in rows && d.1 in rows
  {
    if deps == [] then []
    else (if Parallelizable(rows[deps[0].0], rows[deps[0].1]) == parallel then [deps[0]] else [])
         + Filtered(deps[1..], rows, parallel)
  }

  lemma {:induction false} FilteredAppend(deps: seq<Edge>, d: Edge, rows: map<string, Row>, parallel: bool)
    requires forall e :: e in deps ==> e.0 in rows && e.1 in rows
    requires d.0 in rows && d.1 in rows
    ensures Filtered(deps + [d], rows, parallel) ==
            Filtered(deps, rows, parallel) + if Parallelizable(rows[d.0], rows[d.1]) == parallel then [d] else []
  {
    hide Parallelizable;
    if deps == [] {
      assert deps + [d] == [d];
    } else {
      FilteredAppend(deps[1..], d, rows, parallel);
      var first := if Parallelizable(rows[deps[0].0], rows[deps[0].1]) == parallel then [deps[0]] else [];
      var last := if Parallelizable(rows[d.0], rows[d.1]) == parallel then [d] else [];
      assert (deps + [d])[0] == deps[0] && (deps + [d])[1..] == deps[1..] + [d];
      assert Filtered(deps + [d], rows, parallel) == first + (Filtered(deps[1..], rows, parallel) + last);
      assert first + (Filtered(deps[1..], rows, parallel) + last) == (first + Filtered(deps[1..], rows, parallel)) + last;
    }
  }

  lemma NothingFiltered(rows: map<string, Row>)
    ensures Filtered([], rows, false) == [] && Filtered([], rows, true) == []
  {
  }

  lemma {:induction false} FilteredIn(deps: seq<Edge>, rows: map<string, Row>, parallel: bool, d: Edge)
    requires forall e :: e in deps ==> e.0 in rows && e.1 in rows
    ensures d in Filtered(deps, rows, parallel) <==> d in deps && Parallelizable(rows[d.0], rows[d.1]) == parallel
  {
    hide Parallelizable;
    if deps == [] {
    } else {
      FilteredIn(deps[1..], rows, parallel, d);
    }
  }

  /** A constraint names functions of the service. */
  ghost predicate Named(d: Edge, functions: seq<string>) {
    d.0 in functions && d.1 in functions
  }

  lemma FilteredNamed(deps: seq<Edge>, functions: seq<string>, rows: map<string, Row>, parallel: bool)
    requires forall d :: d in deps ==> d.0 in rows && d.1 in rows
    requires forall d :: d in deps ==> Named(d, functions)
    ensures forall d :: d in Filtered(deps, rows, parallel) ==> Named(d, functions) && d.0 in rows && d.1 in rows
    ensures deps == [] ==> Filtered(deps, rows, parallel) == []
  {
    forall d | d in Filtered(deps, rows, parallel)
      ensures Named(d, functions) && d.0 in rows && d.1 in rows
    {
      FilteredIn(deps, rows, parallel, d);
    }
  }

  // ----- Positional constraints -----

  /** A function and the place it must have in the chain. */
  type Position = (string, string)

  /** One or two entries, not both for the same place; otherwise all of them are ignored. */
  predicate HasPositionals(positionals: seq<Position>) {
    1 <= |positionals| <= 2 && (|positionals| == 2 ==> positionals[0].1 != positionals[1].1)
  }

  /** The function a place goes to: the last entry for it wins. */
  ghost function Holder(positionals: seq<Position>, place: string): Option<string> {
    if positionals == [] then None
    else
      var n := |positionals| - 1;
      if positionals[n].1 == place then Some(positionals[n].0) else Holder(positionals[..n], place)
  }

  /** The function the graph starts from, if the entries are heeded at all. */
  ghost function Start(positionals: seq<Position>): Option<string> {
    if HasPositionals(positionals) then Holder(positionals, "first") else None
  }

  ghost predicate LevelPair(nodes: set<string>, rows: map<string, Row>, a: string, b: string)
    requires forall n :: n in nodes ==> n in rows
  {
    a in nodes && b in nodes && a != b && Parallelizable(rows[a], rows[b])
  }

  /** The two functions are leaves of one order tree, or both take part in
      priority constraints, and may run in parallel in this direction. */
  ghost predicate OnOneLevel(order: set<Edge>, priorities: set<string>, rows: map<string, Row>, a: string, b: string)
    requires forall n :: n in Endpoints(order) || n in priorities ==> n in rows
  {
    (exists r :: r in RootNodes(order) && SharesTree(order, rows, r, a, b))
    || LevelPair(priorities, rows, a, b)
  }

  ghost predicate SharesTree(order: set<Edge>, rows: map<string, Row>, r: string, a: string, b: string)
    requires r in Endpoints(order) && forall n :: n in Endpoints(order) ==> n in rows
  {
    LevelPair(LeavesFrom(order, r), rows, a, b)
  }

  /** The two functions are leaves of one of these order trees. */
  ghost predicate SharesSome(order: set<Edge>, rows: map<string, Row>, roots: set<string>, a: string, b: string)
    requires roots <= Endpoints(order) && forall n :: n in Endpoints(order) ==> n in rows
  {
    exists r :: r in roots && SharesTree(order, rows, r, a, b)
  }

  ghost function LeavesOf(order: set<Edge>, roots: set<string>): set<string> {
    set r, l | r in roots && l in LeavesFrom(order, r) :: l
  }

  lemma NoTreesYet(order: set<Edge>, rows: map<string, Row>)
    requires forall n :: n in Endpoints(order) ==> n in rows
    ensures LeavesOf(order, {}) == {} && forall a, b :: !SharesSome(order, rows, {}, a, b)
  {
  }

  lemma OneMoreTree(order: set<Edge>, rows: map<string, Row>, roots: set<string>, r: string)
    requires roots + {r} <= Endpoints(order) && forall n :: n in Endpoints(order) ==> n in rows
    ensures LeavesOf(order, roots + {r}) == LeavesOf(order, roots) + LeavesFrom(order, r)
    ensures forall a, b :: SharesSome(order, rows, roots + {r}, a, b) <==>
                             SharesSome(order, rows, roots, a, b) || SharesTree(order, rows, r, a, b)
  {
    hide SharesTree, LeavesFrom;
  }

  lemma AllTrees(order: set<Edge>, rows: map<string, Row>)
    requires forall n :: n in Endpoints(order) ==> n in rows
    ensures RootNodes(order) <= Endpoints(order) && LeavesOf(order, RootNodes(order)) == LeafNodes(order)
    ensures forall a, b :: SharesSome(order, rows, RootNodes(order), a, b) <==>
                             exists r :: r in RootNodes(order) && SharesTree(order, rows, r, a, b)
  {
    hide SharesTree, LeavesFrom;
  }

  lemma RootsKnown(order: set<Edge>, rank: Rank)
    requires RankedFromRoots(order, rank)
    ensures RootNodes(order) <= Endpoints(order)
    ensures forall r :: r in RootNodes(order) ==> RankedBelow(order, r, rank)
  {
  }

  // ----- The conflict list -----

  /** The id of some parent, or -1 without any. */
  ghost predicate ParentId(parents: set<string>, ids: map<string, int>, id: int) {
    if parents == {} then id == -1 else exists p :: p in parents && p in ids && id == ids[p]
  }

  ghost predicate ItemFor(ci: ConflictItem, pair: Edge, ids: map<string, int>, parentOf: map<string, int>) {
    pair.0 in ids && pair.1 in ids && pair.0 in parentOf && ci == ConflictItem(ids[pair.0], ids[pair.1], parentOf[pair.0])
  }

  ghost predicate ItemsFor(items: seq<ConflictItem>, pairs: seq<Edge>, ids: map<string, int>, parentOf: map<string, int>) {
    |items| == |pairs| && forall i :: 0 <= i < |items| ==> ItemFor(items[i], pairs[i], ids, parentOf)
  }

  ghost predicate NoRepeats(pairs: seq<Edge>) {
    forall i, j :: 0 <= i < j < |pairs| ==> pairs[i] != pairs[j]
  }

  lemma ItemsAppend(items: seq<ConflictItem>, pairs: seq<Edge>, more: seq<ConflictItem>, morePairs: seq<Edge>,
                    ids: map<string, int>, parentOf: map<string, int>, major: string, parentId: int)
    requires ItemsFor(items, pairs, ids, parentOf) && NoRepeats(pairs) && major !in parentOf
    requires ItemsFor(more, morePairs, ids, map[major := parentId]) && NoRepeats(morePairs)
    ensures ItemsFor(items + more, pairs + morePairs, ids, parentOf[major := parentId]) && NoRepeats(pairs + morePairs)
  {
    forall i | 0 <= i < |pairs|
      ensures pairs[i].0 in parentOf
    {
      assert ItemFor(items[i], pairs[i], ids, parentOf);
    }
    forall i | 0 <= i < |morePairs|
      ensures morePairs[i].0 == major
    {
      assert ItemFor(more[i], morePairs[i], ids, map[major := parentId]);
    }
    forall i | 0 <= i < |items + more|
      ensures ItemFor((items + more)[i], (pairs + morePairs)[i], ids, parentOf[major := parentId])
    {
      assert i < |items| ==> ItemFor(items[i], pairs[i], ids, parentOf);
      assert i >= |items| ==> ItemFor(more[i - |items|], morePairs[i - |items|], ids, map[major := parentId]);
    }
  }

  /** All pairs of one major stand together. */
  ghost predicate Grouped(pairs: seq<Edge>) {
    forall i, j, k :: 0 <= i < j < k < |pairs| && pairs[i].0 == pairs[k].0 ==> pairs[j].0 == pairs[i].0
  }

  lemma GroupedAppend(pairs: seq<Edge>, more: seq<Edge>, major: string)
    requires Grouped(pairs) && forall p :: p in pairs ==> p.0 != major
    requires forall p :: p in more ==> p.0 == major
    ensures Grouped(pairs + more)
  {
    var all := pairs + more;
    forall i, j, k | 0 <= i < j < k < |all| && all[i].0 == all[k].0
      ensures all[j].0 == all[i].0
    {
      assert all[i] in pairs || all[i] in more;
      assert k >= |pairs| ==> all[k] in more;
      assert j >= |pairs| ==> all[j] in more;
    }
  }

  /** The list has one item for each recorded pair, in the major's favour and
      at a parent of the major; the items of one major stand together and have
      the same parent. */
  ghost predicate ListsConflicts(items: seq<ConflictItem>, pairs: seq<Edge>, conflicts: ConflictMap,
                                 parents: map<string, set<string>>, ids: map<string, int>, parentOf: map<string, int>) {
    (forall a, b :: (a, b) in pairs <==> HasPair(conflicts, a, b))
    && NoRepeats(pairs) && Grouped(pairs)
    && ItemsFor(items, pairs, ids, parentOf)
    && (forall a :: a in parentOf ==> a in parents && ParentId(parents[a], ids, parentOf[a]))
  }

  /** The list so far, with all majors but some. */
  ghost predicate ListedBut(majors: set<string>, items: seq<ConflictItem>, pairs: seq<Edge>, conflicts: ConflictMap,
                            parents: map<string, set<string>>, ids: map<string, int>, parentOf: map<string, int>) {
    (forall a, b :: (a, b) in pairs <==> a !in majors && HasPair(conflicts, a, b))
    && NoRepeats(pairs) && Grouped(pairs)
    && ItemsFor(items, pairs, ids, parentOf) && parentOf.Keys !! majors
    && (forall a :: a in parentOf ==> a in parents && ParentId(parents[a], ids, parentOf[a]))
  }

  lemma NothingListed(conflicts: ConflictMap, parents: map<string, set<string>>, ids: map<string, int>)
    ensures ListedBut(conflicts.Keys, [], [], conflicts, parents, ids, map[])
  {
  }

  lemma AllListed(items: seq<ConflictItem>, pairs: seq<Edge>, conflicts: ConflictMap,
                  parents: map<string, set<string>>, ids: map<string, int>, parentOf: map<string, int>)
    requires ListedBut({}, items, pairs, conflicts, parents, ids, parentOf)
    ensures ConflictsListed(items, conflicts, parents, ids)
  {
    hide ItemsFor, NoRepeats, Grouped, ParentId, HasPair;
    assert ListsConflicts(items, pairs, conflicts, parents, ids, parentOf);
  }

  lemma ListedMore(majors: set<string>, items: seq<ConflictItem>, pairs: seq<Edge>, conflicts: ConflictMap,
                   parents: map<string, set<string>>, ids: map<string, int>, parentOf: map<string, int>,
                   major: string, parentId: int, more: seq<ConflictItem>, morePairs: seq<Edge>)
    requires ListedBut(majors, items, pairs, conflicts, parents, ids, parentOf)
    requires major in majors && major in parents && ParentId(parents[major], ids, parentId)
    requires forall p :: p in morePairs <==> p.0 == major && HasPair(conflicts, p.0, p.1)
    requires NoRepeats(morePairs) && ItemsFor(more, morePairs, ids, map[major := parentId])
    ensures ListedBut(majors - {major}, items + more, pairs + morePairs, conflicts, parents, ids, parentOf[major := parentId])
  {
    hide ItemsFor, NoRepeats, Grouped, ParentId, HasPair;
    ItemsAppend(items, pairs, more, morePairs, ids, parentOf, major, parentId);
    assert forall p :: p in pairs ==> p == (p.0, p.1) && p.0 !in majors;
    GroupedAppend(pairs, morePairs, major);
    forall a, b
      ensures (a, b) in pairs + morePairs <==> a !in majors - {major} && HasPair(conflicts, a, b)
    {
      assert (a, b).0 == a && (a, b).1 == b;
    }
  }

  /** The list is one that the recorded pairs and the graph allow. */
  ghost predicate ConflictsListed(items: seq<ConflictItem>, conflicts: ConflictMap, parents: map<string, set<string>>,
                                  ids: map<string, int>) {
    exists pairs, parentOf :: ListsConflicts(items, pairs, conflicts, parents, ids, parentOf)
  }

  /** All edges that the neighbour sets give. */
  function EdgesIn(neighbors: map<string, set<string>>): set<Edge> {
    set a, b | a in neighbors && b in neighbors[a] :: (a, b)
  }

  /** Neighbour and parent sets mirror each other, within the known nodes. */
  ghost predicate Mirrored(neighbors: map<string, set<string>>, parents: map<string, set<string>>) {
    neighbors.Keys == parents.Keys
    && (forall a, b :: a in neighbors && b in neighbors[a] ==> b in parents && a in parents[b])
    && (forall a, b :: b in parents && a in parents[b] ==> a in neighbors && b in neighbors[a])
  }

  lemma OneEdgeMore(neighbors: map<string, set<string>>, parents: map<string, set<string>>, a: string, b: string)
    requires Mirrored(neighbors, parents) && a in neighbors && b in neighbors
    ensures b in parents
    ensures var more, moreParents := neighbors[a := neighbors[a] + {b}], parents[b := parents[b] + {a}];
      more.Keys == neighbors.Keys && Mirrored(more, moreParents) && EdgesIn(more) == EdgesIn(neighbors) + {(a, b)}
  {
    var more := neighbors[a := neighbors[a] + {b}];
    assert more.Keys == neighbors.Keys;
    forall e
      ensures e in EdgesIn(more) <==> e in EdgesIn(neighbors) + {(a, b)}
    {
      assert e == (e.0, e.1);
    }
  }

  class Orchestrator {
    const actionTable: map<string, Row>
    var neighbors: map<string, set<string>>
    var parents: map<string, set<string>>
    var pairToConflicts: ConflictMap
    var parsedOrder: seq<Edge>
    var parsedPriorities: seq<Edge>
    var funcToIp: map<string, string>

    /** Parses the constraints, builds the graph and places the functions. */
    constructor (actionTable: map<string, Row>, functions: seq<string>, positionals: seq<Position>,
                 dependencies: seq<Edge>, priorities: seq<Edge>, ips: seq<string>, ghost rank: Rank)
      requires forall d :: d in dependencies || d in priorities ==> d.0 in actionTable && d.1 in actionTable
      requires forall d :: d in dependencies || d in priorities ==> Named(d, functions)
      requires RankedFromRoots(OrderEdges(Filtered(dependencies, actionTable, false)), rank)
      requires forall p :: p in positionals ==> p.0 in functions
      requires HasPositionals(positionals) && (dependencies != [] || Filtered(priorities, actionTable, true) != []) ==> Start(positionals).Some?
      requires functions != [] ==> ips != []
      ensures this.actionTable == actionTable && Valid()
      ensures forall f :: f in neighbors <==> f in functions
      ensures parsedOrder == Filtered(dependencies, actionTable, false)
      ensures parsedPriorities == Filtered(dependencies, actionTable, true) + Filtered(priorities, actionTable, true)
      ensures forall n :: n in Endpoints(OrderEdges(parsedOrder)) || n in Constrained(parsedPriorities) ==> n in actionTable
      ensures Edges() == ServiceEdges(OrderEdges(parsedOrder), Constrained(parsedPriorities), Start(positionals), Holder(positionals, "last"))
      ensures FieldsKept()
      ensures forall a, b :: HasPair(pairToConflicts, a, b) <==>
                (((a, b) in dependencies || (a, b) in priorities) && Recorded(a, b))
                || OnOneLevel(OrderEdges(parsedOrder), Constrained(parsedPriorities), actionTable, a, b)
      ensures funcToIp == PlacedInTurn(ips, functions, |functions|, map[])
    {
      this.actionTable := actionTable;
      neighbors, parents, pairToConflicts := map[], map[], map[];
      parsedOrder, parsedPriorities, funcToIp := [], [], map[];
      new;
      hide Valid, Edges, OrderEdges, ServiceEdges, Holder, OnOneLevel, RankedFromRoots, Endpoints, Constrained, HasPositionals, Recorded, Filtered;
      ParseConstraints(dependencies, priorities);
      FilteredNamed(dependencies, functions, actionTable, false);
      FilteredNamed(dependencies, functions, actionTable, true);
      FilteredNamed(priorities, functions, actionTable, true);
      hide HasPair, Named;
      BuildGraph(functions, positionals, rank);
      RoundRobinPartitioning(ips, functions);
    }

    // ----- Constraints -----

    /** With every recorded pair the fields it conflicts on are kept, and every
        recorded major has a minor. */
    ghost predicate FieldsKept()
      reads `pairToConflicts
    {
      (forall a, b :: HasPair(pairToConflicts, a, b) ==>
         a in actionTable && b in actionTable && pairToConflicts[a][b] == ConflictFields(actionTable[a], actionTable[b]))
      && forall a :: a in pairToConflicts ==> pairToConflicts[a] != map[]
    }

    method Record(a: string, b: string, fields: seq<Field>)
      requires a in actionTable && b in actionTable && fields == ConflictFields(actionTable[a], actionTable[b])
      modifies `pairToConflicts
      ensures forall x, y :: HasPair(pairToConflicts, x, y) <==> old(HasPair(pairToConflicts, x, y)) || (x == a && y == b)
      ensures old(FieldsKept()) ==> FieldsKept()
    {
      pairToConflicts := SetPair(pairToConflicts, a, b, fields);
    }

    method ParseConstraints(dependencies: seq<Edge>, priorities: seq<Edge>)
      requires forall d :: d in dependencies || d in priorities ==> d.0 in actionTable && d.1 in actionTable
      requires pairToConflicts == map[] && parsedOrder == [] && parsedPriorities == []
      modifies `parsedOrder, `parsedPriorities, `pairToConflicts
      ensures parsedOrder == Filtered(dependencies, actionTable, false)
      ensures parsedPriorities == Filtered(dependencies, actionTable, true) + Filtered(priorities, actionTable, true)
      ensures old(FieldsKept()) ==> FieldsKept()
      ensures forall a, b :: HasPair(pairToConflicts, a, b) <==> ((a, b) in dependencies || (a, b) in priorities) && Recorded(a, b)
    {
      assert FieldsKept();
      assert forall a, b :: !HasPair(pairToConflicts, a, b);
      NothingFiltered(actionTable);
      hide Recorded, FieldsKept, HasPair, Filtered;
      if |dependencies| != 0 {
        ParseOrderDependencies(dependencies);
      }
      assert parsedOrder == Filtered(dependencies, actionTable, false);
      assert parsedPriorities == Filtered(dependencies, actionTable, true);
      assert forall a, b :: HasPair(pairToConflicts, a, b) <==> (a, b) in dependencies && Recorded(a, b);
      if |priorities| != 0 {
        ParsePriorityDependencies(priorities);
      }
    }

    /** Order constraints that allow parallel runs become priorities, with
        the first function as major wherever they conflict; the others stay. */
    method ParseOrderDependencies(dependencies: seq<Edge>)
      requires forall d :: d in dependencies ==> d.0 in actionTable && d.1 in actionTable
      modifies `parsedOrder, `parsedPriorities, `pairToConflicts
      ensures parsedOrder == old(parsedOrder) + Filtered(dependencies, actionTable, false)
      ensures parsedPriorities == old(parsedPriorities) + Filtered(dependencies, actionTable, true)
      ensures old(FieldsKept()) ==> FieldsKept()
      ensures forall a, b :: HasPair(pairToConflicts, a, b) <==>
                old(HasPair(pairToConflicts, a, b)) || ((a, b) in dependencies && Recorded(a, b))
    {
      NothingFiltered(actionTable);
      hide FieldsKept, ConflictFields, Parallelizable, HasPair, Filtered;
      for i := 0 to |dependencies|
        invariant parsedOrder == old(parsedOrder) + Filtered(dependencies[..i], actionTable, false)
        invariant parsedPriorities == old(parsedPriorities) + Filtered(dependencies[..i], actionTable, true)
        invariant old(FieldsKept()) ==> FieldsKept()
        invariant forall a, b :: HasPair(pairToConflicts, a, b) <==>
                    old(HasPair(pairToConflicts, a, b)) || ((a, b) in dependencies[..i] && Recorded(a, b))
      {
        var d := dependencies[i];
        assert dependencies[..i + 1] == dependencies[..i] + [d];
        FilteredAppend(dependencies[..i], d, actionTable, false);
        FilteredAppend(dependencies[..i], d, actionTable, true);
        var parallel, conflicting := IsParallelizable(actionTable[d.0], actionTable[d.1]);
        if parallel {
          parsedPriorities := parsedPriorities + [d];
          if |conflicting| > 0 {
            Record(d.0, d.1, conflicting);
          }
        } else {
          parsedOrder := parsedOrder + [d];
        }
      }
      assert dependencies[..|dependencies|] == dependencies;
    }

    /** The pair allows parallel runs and conflicts on some field. */
    ghost predicate Recorded(a: string, b: string)
      requires a in actionTable && b in actionTable
    {
      Parallelizable(actionTable[a], actionTable[b]) && ConflictFields(actionTable[a], actionTable[b]) != []
    }

    /** Every ordered pair of distinct functions on one level that allows
        parallel runs is recorded, even without conflicting fields. */
    method CheckLevelParallelizability(nodes: set<string>)
      requires forall n :: n in nodes ==> n in actionTable
      modifies `pairToConflicts
      ensures old(FieldsKept()) ==> FieldsKept()
      ensures forall a, b :: HasPair(pairToConflicts, a, b) <==>
                old(HasPair(pairToConflicts, a, b)) || LevelPair(nodes, actionTable, a, b)
    {
      hide FieldsKept, ConflictFields, Parallelizable, HasPair;
      var todo := nodes;
      while todo != {}
        invariant todo <= nodes
        invariant old(FieldsKept()) ==> FieldsKept()
        invariant forall a, b :: HasPair(pairToConflicts, a, b) <==>
                    old(HasPair(pairToConflicts, a, b)) || (a !in todo && LevelPair(nodes, actionTable, a, b))
        decreases todo
      {
        assert Pick(todo) in todo;
        var nf1 :| nf1 in todo;
        var others := nodes;
        while others != {}
          invariant others <= nodes
          invariant old(FieldsKept()) ==> FieldsKept()
          invariant forall a, b :: HasPair(pairToConflicts, a, b) <==>
                      old(HasPair(pairToConflicts, a, b)) || (a !in todo && LevelPair(nodes, actionTable, a, b))
                      || (a == nf1 && b !in others && LevelPair(nodes, actionTable, a, b))
          decreases others
        {
          assert Pick(others) in others;
          var nf2 :| nf2 in others;
          if nf1 != nf2 {
            var parallel, conflicting := IsParallelizable(actionTable[nf1], actionTable[nf2]);
            if parallel {
              Record(nf1, nf2, conflicting);
            }
          }
          others := others - {nf2};
        }
        todo := todo - {nf1};
      }
    }

    // ----- The graph -----

    ghost predicate Valid()
      reads `neighbors, `parents
    {
      Mirrored(neighbors, parents)
    }

    function Edges(): set<Edge>
      reads `neighbors
    {
      EdgesIn(neighbors)
    }

    method AddEdge(a: string, b: string)
      requires Valid() && a in neighbors && b in neighbors
      modifies `neighbors, `parents
      ensures Valid() && neighbors.Keys == old(neighbors.Keys)
      ensures Edges() == old(Edges()) + {(a, b)}
    {
      hide *;
      IsMirrored();
      OneEdgeMore(neighbors, parents, a, b);
      neighbors := neighbors[a := neighbors[a] + {b}];
      parents := parents[b := parents[b] + {a}];
      IsMirrored();
    }

    lemma IsMirrored()
      ensures Valid() <==> Mirrored(neighbors, parents)
      ensures Edges() == EdgesIn(neighbors)
    {
    }

    /** Nodes for all functions, without edges. */
    method MakeNodes(functions: seq<string>)
      modifies `neighbors, `parents
      ensures Valid() && Edges() == {}
      ensures forall f :: f in neighbors <==> f in functions
    {
      neighbors, parents := map[], map[];
      for i := 0 to |functions|
        invariant Valid() && Edges() == {}
        invariant forall f :: f in neighbors <==> f in functions[..i]
        invariant forall f :: f in neighbors ==> neighbors[f] == {}
        invariant forall f :: f in parents ==> parents[f] == {}
      {
        assert functions[..i + 1] == functions[..i] + [functions[i]];
        neighbors := neighbors[functions[i] := {}];
        parents := parents[functions[i] := {}];
      }
      assert functions[..|functions|] == functions;
    }

    /** Depth first and without a visited set: ends because ranks fall along
        every edge that the root reaches, and adds the nodes without neighbours
        below the root. */
    method FindAllLeaves(root: string, leaves: set<string>, ghost rank: Rank) returns (found: set<string>)
      requires Valid() && root in neighbors && RankedBelow(Edges(), root, rank)
      ensures found == leaves + LeavesFrom(Edges(), root)
      decreases rank(root)
    {
      found := leaves;
      if neighbors[root] == {} {
        assert NoOut(Edges(), root);
        LeafBelow(root);
        found := found + {root};
      } else {
        var todo := neighbors[root];
        while todo != {}
          invariant todo <= neighbors[root]
          invariant forall l :: l in found <==>
                      l in leaves || exists c :: c in neighbors[root] && c !in todo && l in LeavesFrom(Edges(), c)
          decreases todo
        {
          assert Pick(todo) in todo;
          var c :| c in todo;
          assert (root, c) in Edges();
          RankedBelowStep(Edges(), root, c, rank);
          found := FindAllLeaves(c, found, rank);
          todo := todo - {c};
        }
        LeafBelow(root);
      }
    }

    lemma LeafBelow(root: string)
      requires Valid() && root in neighbors
      ensures forall l :: l in LeavesFrom(Edges(), root) <==>
                if neighbors[root] == {} then l == root else exists c :: c in neighbors[root] && l in LeavesFrom(Edges(), c)
    {
      if neighbors[root] != {} {
        var c := Pick(neighbors[root]);
        assert (root, c) in Edges() && (root, c).0 == root;
      }
      forall l
        ensures l in LeavesFrom(Edges(), root) <==>
                if neighbors[root] == {} then l == root else exists c :: c in neighbors[root] && l in LeavesFrom(Edges(), c)
      {
        LeavesStep(Edges(), root, l);
        assert forall c :: (root, c) in Edges() <==> c in neighbors[root];
      }
    }

    // ----- Building the graph -----

    method ParsePriorityDependencies(priorities: seq<Edge>)
      requires forall d :: d in priorities ==> d.0 in actionTable && d.1 in actionTable
      modifies `parsedPriorities, `pairToConflicts
      ensures parsedPriorities == old(parsedPriorities) + Filtered(priorities, actionTable, true)
      ensures old(FieldsKept()) ==> FieldsKept()
      ensures forall a, b :: HasPair(pairToConflicts, a, b) <==>
                old(HasPair(pairToConflicts, a, b)) || ((a, b) in priorities && Recorded(a, b))
    {
      NothingFiltered(actionTable);
      hide FieldsKept, ConflictFields, Parallelizable, HasPair, Filtered;
      for i := 0 to |priorities|
        invariant parsedPriorities == old(parsedPriorities) + Filtered(priorities[..i], actionTable, true)
        invariant old(FieldsKept()) ==> FieldsKept()
        invariant forall a, b :: HasPair(pairToConflicts, a, b) <==>
                    old(HasPair(pairToConflicts, a, b)) || ((a, b) in priorities[..i] && Recorded(a, b))
      {
        var d := priorities[i];
        assert priorities[..i + 1] == priorities[..i] + [d];
        FilteredAppend(priorities[..i], d, actionTable, true);
        var parallel, conflicting := IsParallelizable(actionTable[d.0], actionTable[d.1]);
        if parallel {
          parsedPriorities := parsedPriorities + [d];
          if |conflicting| > 0 {
            Record(d.0, d.1, conflicting);
          }
        }
      }
      assert priorities[..|priorities|] == priorities;
    }

    static lemma NoOrder()
      ensures OrderEdges([]) == {}
    {
    }

    static lemma OrderEdgesAppend(order: seq<Edge>, d: Edge)
      ensures OrderEdges(order + [d]) == OrderEdges(order) + {d}
    {
      forall e | e in OrderEdges(order) + {d}
        ensures e in OrderEdges(order + [d])
      {
        var i := if e == d then |order| else var i :| 0 <= i < |order| && order[i] == e; i;
        assert (order + [d])[i] == e;
      }
    }

    method AddOrderEdges()
      requires Valid() && forall d :: d in parsedOrder ==> d.0 in neighbors && d.1 in neighbors
      modifies `neighbors, `parents
      ensures Valid() && neighbors.Keys == old(neighbors.Keys)
      ensures Edges() == old(Edges()) + OrderEdges(parsedOrder)
    {
      hide OrderEdges, Edges, Valid;
      assert OrderEdges(parsedOrder[..0]) == {} by { NoOrder(); }
      for i := 0 to |parsedOrder|
        invariant Valid() && neighbors.Keys == old(neighbors.Keys)
        invariant Edges() == old(Edges()) + OrderEdges(parsedOrder[..i])
      {
        var d := parsedOrder[i];
        OrderEdgesAppend(parsedOrder[..i], d);
        assert parsedOrder[..i + 1] == parsedOrder[..i] + [d];
        assert d == (d.0, d.1);
        AddEdge(d.0, d.1);
      }
      assert parsedOrder[..|parsedOrder|] == parsedOrder;
    }

    lemma ParentsMirror(r: string)
      requires Valid() && r in parents
      ensures parents[r] == {} <==> forall e :: e in Edges() ==> e.1 != r
    {
      if parents[r] != {} {
        assert (Pick(parents[r]), r) in Edges() && (Pick(parents[r]), r).1 == r;
      }
    }

    lemma EndpointsKnown()
      requires Valid()
      ensures Endpoints(Edges()) <= neighbors.Keys
    {
    }

    /** The nodes of the order constraints whose parent sets are empty. */
    method FindRoots() returns (roots: set<string>)
      requires Valid() && Edges() == OrderEdges(parsedOrder)
      ensures roots == RootNodes(Edges())
    {
      roots := {};
      EndpointsKnown();
      ghost var nodes := Endpoints(Edges());
      var todo := Endpoints(OrderEdges(parsedOrder));
      hide OrderEdges, Edges, Valid, Endpoints;
      while todo != {}
        invariant todo <= nodes
        invariant forall r :: r in roots <==> r in nodes && r !in todo && r in parents && parents[r] == {}
        decreases todo
      {
        assert Pick(todo) in todo;
        var node :| node in todo;
        if parents[node] == {} {
          roots := roots + {node};
        }
        todo := todo - {node};
      }
      forall r | r in nodes
        ensures r in roots <==> forall e :: e in Edges() ==> e.1 != r
      {
        ParentsMirror(r);
      }
    }

    static lemma RootLeavesIn(edges: set<Edge>)
      ensures forall r, l {:trigger l in LeavesFrom(edges, r)} :: r in RootNodes(edges) && l in LeavesFrom(edges, r) ==> l in Endpoints(edges)
    {
    }

    /** One order tree: its leaves, and their pairs recorded. */
    method CheckTree(root: string, ghost rank: Rank) returns (leavesForRoot: set<string>)
      requires Valid() && RankedBelow(Edges(), root, rank) && root in RootNodes(Edges())
      requires forall n :: n in Endpoints(Edges()) ==> n in actionTable
      modifies `pairToConflicts
      ensures leavesForRoot == LeavesFrom(Edges(), root)
      ensures old(FieldsKept()) ==> FieldsKept()
      ensures forall a, b :: HasPair(pairToConflicts, a, b) <==>
                old(HasPair(pairToConflicts, a, b)) || SharesTree(Edges(), actionTable, root, a, b)
    {
      EndpointsKnown();
      RootLeavesIn(Edges());
      hide Valid, Edges, LeavesFrom, LevelPair, HasPair, RankedFromRoots;
      leavesForRoot := FindAllLeaves(root, {}, rank);
      CheckLevelParallelizability(leavesForRoot);
    }

    /** Finds the leaves of every order tree and records their pairs. */
    method CheckTrees(roots: set<string>, ghost rank: Rank) returns (leafNodes: set<string>)
      requires Valid() && RankedFromRoots(Edges(), rank) && roots == RootNodes(Edges())
      requires forall n :: n in Endpoints(Edges()) ==> n in actionTable
      modifies `pairToConflicts
      ensures leafNodes == LeafNodes(Edges())
      ensures old(FieldsKept()) ==> FieldsKept()
      ensures forall a, b :: HasPair(pairToConflicts, a, b) <==>
                old(HasPair(pairToConflicts, a, b)) || exists r :: r in roots && SharesTree(Edges(), actionTable, r, a, b)
    {
      hide *;
      leafNodes := {};
      var todo := roots;
      ghost var edges, done := Edges(), {};
      NoTreesYet(edges, actionTable);
      RootsKnown(edges, rank);
      while todo != {}
        invariant todo + done == roots && todo !! done && Edges() == edges && Valid()
        invariant leafNodes == LeavesOf(edges, done)
        invariant old(FieldsKept()) ==> FieldsKept()
        invariant forall a, b :: HasPair(pairToConflicts, a, b) <==>
                    old(HasPair(pairToConflicts, a, b)) || SharesSome(edges, actionTable, done, a, b)
        decreases todo
      {
        assert Pick(todo) in todo;
        var node :| node in todo;
        OneMoreTree(edges, actionTable, done, node);
        var leavesForRoot := CheckTree(node, rank);
        leafNodes := leafNodes + leavesForRoot;
        todo := todo - {node};
        done := done + {node};
      }
      AllTrees(edges, actionTable);
    }

    /** Every node gets an edge from `first`. */
    method AttachToFirst(first: string, nodes: set<string>)
      requires Valid() && first in neighbors && nodes <= neighbors.Keys
      modifies `neighbors, `parents
      ensures Valid() && neighbors.Keys == old(neighbors.Keys)
      ensures Edges() == old(Edges()) + EdgesFrom(first, nodes)
    {
      hide Valid, Edges;
      var todo := nodes;
      while todo != {}
        invariant todo <= nodes && Valid() && neighbors.Keys == old(neighbors.Keys)
        invariant Edges() == old(Edges()) + EdgesFrom(first, nodes - todo)
        decreases todo
      {
        assert Pick(todo) in todo;
        var node :| node in todo;
        AddEdge(first, node);
        assert EdgesFrom(first, nodes - todo + {node}) == EdgesFrom(first, nodes - todo) + {(first, node)};
        assert nodes - (todo - {node}) == nodes - todo + {node};
        todo := todo - {node};
      }
    }

    /** Every node gets an edge to `last`. */
    method AttachToLast(last: string, nodes: set<string>)
      requires Valid() && last in neighbors && nodes <= neighbors.Keys
      modifies `neighbors, `parents
      ensures Valid() && neighbors.Keys == old(neighbors.Keys)
      ensures Edges() == old(Edges()) + EdgesTo(nodes, last)
    {
      hide Valid, Edges;
      var todo := nodes;
      while todo != {}
        invariant todo <= nodes && Valid() && neighbors.Keys == old(neighbors.Keys)
        invariant Edges() == old(Edges()) + EdgesTo(nodes - todo, last)
        decreases todo
      {
        assert Pick(todo) in todo;
        var node :| node in todo;
        AddEdge(node, last);
        assert EdgesTo(nodes - todo + {node}, last) == EdgesTo(nodes - todo, last) + {(node, last)};
        assert nodes - (todo - {node}) == nodes - todo + {node};
        todo := todo - {node};
      }
    }

    /** The last entry for a place, if there is one. */
    method FindHolder(positionals: seq<Position>, place: string) returns (holder: Option<string>)
      ensures holder == Holder(positionals, place)
    {
      holder := None;
      for i := 0 to |positionals|
        invariant holder == Holder(positionals[..i], place)
      {
        var pos := positionals[i];
        assert positionals[..i + 1][..i] == positionals[..i];
        if pos.1 == place {
          holder := Some(pos.0);
        }
      }
      assert positionals[..|positionals|] == positionals;
    }

    method FindPriorityNodes() returns (nodes: set<string>)
      ensures nodes == Constrained(parsedPriorities)
    {
      nodes := {};
      for i := 0 to |parsedPriorities|
        invariant nodes == Constrained(parsedPriorities[..i])
      {
        var d := parsedPriorities[i];
        assert parsedPriorities[..i + 1] == parsedPriorities[..i] + [d];
        nodes := nodes + {d.0, d.1};
      }
      assert parsedPriorities[..|parsedPriorities|] == parsedPriorities;
    }

    /** The edges that heeded positional entries add: from the first function
        to roots and priority nodes, from priority nodes and leaves to the last. */
    method AttachPositionals(positionals: seq<Position>, rootNodes: set<string>, priorityNodes: set<string>,
                             leafNodes: set<string>)
      requires Valid() && rootNodes <= neighbors.Keys && priorityNodes <= neighbors.Keys && leafNodes <= neighbors.Keys
      requires rootNodes == RootNodes(Edges()) && leafNodes == LeafNodes(Edges())
      requires HasPositionals(positionals) && (rootNodes != {} || priorityNodes != {}) ==> Start(positionals).Some?
      requires forall p :: p in positionals ==> p.0 in neighbors
      modifies `neighbors, `parents
      ensures Valid() && neighbors.Keys == old(neighbors.Keys)
      ensures Edges() == ServiceEdges(old(Edges()), priorityNodes, Start(positionals), Holder(positionals, "last"))
    {
      var first := FindHolder(positionals, "first");
      var last := FindHolder(positionals, "last");
      HolderNamed(positionals, "first", neighbors.Keys);
      HolderNamed(positionals, "last", neighbors.Keys);
      NoRoots(Edges());
      hide Valid, Edges, RootNodes, LeafNodes, Holder, FirstEdges, LastEdges;
      if HasPositionals(positionals) {
        if first.Some? {
          AttachFirst(first.value, rootNodes, priorityNodes, Edges());
        }
        if last.Some? {
          AttachLast(last.value, priorityNodes, leafNodes, old(Edges()));
        }
      }
    }

    method AttachFirst(first: string, rootNodes: set<string>, priorityNodes: set<string>, ghost order: set<Edge>)
      requires Valid() && first in neighbors && rootNodes <= neighbors.Keys && priorityNodes <= neighbors.Keys
      requires rootNodes == RootNodes(order)
      modifies `neighbors, `parents
      ensures Valid() && neighbors.Keys == old(neighbors.Keys)
      ensures Edges() == old(Edges()) + FirstEdges(order, priorityNodes, first)
    {
      hide Valid, Edges, RootNodes, EdgesFrom;
      AttachToFirst(first, rootNodes);
      AttachToFirst(first, priorityNodes);
    }

    method AttachLast(last: string, priorityNodes: set<string>, leafNodes: set<string>, ghost order: set<Edge>)
      requires Valid() && last in neighbors && leafNodes <= neighbors.Keys && priorityNodes <= neighbors.Keys
      requires leafNodes == LeafNodes(order)
      modifies `neighbors, `parents
      ensures Valid() && neighbors.Keys == old(neighbors.Keys)
      ensures Edges() == old(Edges()) + LastEdges(order, priorityNodes, last)
      ensures leafNodes == {} && priorityNodes == {} ==> Edges() == old(Edges())
    {
      NoEdgesTo(last);
      hide Valid, Edges, LeafNodes, EdgesTo;
      AttachToLast(last, priorityNodes);
      AttachToLast(last, leafNodes);
    }

    static lemma NoEdgesTo(last: string)
      ensures EdgesTo({}, last) == {}
    {
    }

    static lemma NoRoots(edges: set<Edge>)
      ensures RootNodes(edges) == {} ==> LeafNodes(edges) == {}
    {
    }

    static lemma {:induction false} HolderNamed(positionals: seq<Position>, place: string, functions: set<string>)
      requires forall p :: p in positionals ==> p.0 in functions
      ensures Holder(positionals, place).Some? ==> Holder(positionals, place).value in functions
    {
      if positionals == [] {
      } else {
        HolderNamed(positionals[..|positionals| - 1], place, functions);
      }
    }

    lemma OrderNamed(functions: seq<string>)
      requires forall d :: d in parsedOrder || d in parsedPriorities ==> Named(d, functions) && d.0 in actionTable && d.1 in actionTable
      ensures forall n :: n in Endpoints(OrderEdges(parsedOrder)) ==> n in functions && n in actionTable
    {
      assert forall d :: d in OrderEdges(parsedOrder) ==> d in parsedOrder;
    }

    /** The whole construction: nodes, order edges, the pairs on each level,
        and the edges from the first and to the last function. */
    method BuildGraph(functions: seq<string>, positionals: seq<Position>, ghost rank: Rank)
      requires RankedFromRoots(OrderEdges(parsedOrder), rank)
      requires forall d :: d in parsedOrder || d in parsedPriorities ==> Named(d, functions) && d.0 in actionTable && d.1 in actionTable
      requires forall p :: p in positionals ==> p.0 in functions
      requires HasPositionals(positionals) && (parsedOrder != [] || parsedPriorities != []) ==> Start(positionals).Some?
      modifies `neighbors, `parents, `pairToConflicts
      ensures Valid() && forall f :: f in neighbors <==> f in functions
      ensures Edges() == ServiceEdges(OrderEdges(parsedOrder), Constrained(parsedPriorities), Start(positionals), Holder(positionals, "last"))
      ensures forall n :: n in Endpoints(OrderEdges(parsedOrder)) || n in Constrained(parsedPriorities) ==> n in actionTable
      ensures old(FieldsKept()) ==> FieldsKept()
      ensures forall a, b :: HasPair(pairToConflicts, a, b) <==>
                old(HasPair(pairToConflicts, a, b))
                || OnOneLevel(OrderEdges(parsedOrder), Constrained(parsedPriorities), actionTable, a, b)
    {
      hide *;
      AddConstraints(functions);
      var rootNodes := FindRoots();
      var priorityNodes := FindPriorityNodes();
      NothingToAttach();
      var leafNodes := RecordLevels(rootNodes, priorityNodes, rank);
      LeavesNamed(rootNodes, leafNodes);
      AttachPositionals(positionals, rootNodes, priorityNodes, leafNodes);
    }

    lemma NothingToAttach()
      ensures parsedOrder == [] ==> RootNodes(OrderEdges(parsedOrder)) == {}
      ensures parsedPriorities == [] ==> Constrained(parsedPriorities) == {}
    {
    }

    /** The pairs on each level: the leaves of each order tree, and the
        functions of priority constraints. */
    method RecordLevels(rootNodes: set<string>, priorityNodes: set<string>, ghost rank: Rank) returns (leafNodes: set<string>)
      requires Valid() && RankedFromRoots(Edges(), rank) && rootNodes == RootNodes(Edges())
      requires forall n :: n in Endpoints(Edges()) || n in priorityNodes ==> n in actionTable
      modifies `pairToConflicts
      ensures leafNodes == LeafNodes(Edges())
      ensures old(FieldsKept()) ==> FieldsKept()
      ensures forall a, b :: HasPair(pairToConflicts, a, b) <==>
                old(HasPair(pairToConflicts, a, b)) || OnOneLevel(Edges(), priorityNodes, actionTable, a, b)
    {
      ghost var edges := Edges();
      hide Valid, Edges, SharesTree, LevelPair, HasPair, LeafNodes, RankedFromRoots, Endpoints, RootNodes;
      leafNodes := CheckTrees(rootNodes, rank);
      assert Edges() == edges;
      CheckLevelParallelizability(priorityNodes);
    }

    /** Nodes for all functions, with the edges of the order constraints. */
    method AddConstraints(functions: seq<string>)
      requires forall d :: d in parsedOrder || d in parsedPriorities ==> Named(d, functions) && d.0 in actionTable && d.1 in actionTable
      modifies `neighbors, `parents
      ensures Valid() && forall f :: f in neighbors <==> f in functions
      ensures Edges() == OrderEdges(parsedOrder)
      ensures forall n :: n in Endpoints(Edges()) || n in Constrained(parsedPriorities) ==> n in functions && n in actionTable
    {
      OrderNamed(functions);
      MakeNodes(functions);
      AddOrderEdges();
    }

    lemma LeavesNamed(rootNodes: set<string>, leafNodes: set<string>)
      requires Valid() && rootNodes == RootNodes(Edges()) && leafNodes == LeafNodes(Edges())
      ensures rootNodes <= neighbors.Keys && leafNodes <= neighbors.Keys
    {
      EndpointsKnown();
      RootLeavesIn(Edges());
    }

    // ----- What the merger is given -----

    /** Some parent's id, whichever parent the set yields first; -1 without one. */
    method ParentIdOf(f: string, ids: map<string, int>) returns (id: int)
      requires Valid() && f in parents && forall g :: g in neighbors ==> g in ids
      ensures ParentId(parents[f], ids, id)
    {
      if parents[f] == {} {
        return -1;
      }
      assert Pick(parents[f]) in parents[f];
      var parent :| parent in parents[f];
      id := ids[parent];
    }

    /** One item for each recorded pair. */
    method CreateConflictsList(ids: map<string, int>) returns (items: seq<ConflictItem>)
      requires Valid() && forall g :: g in neighbors ==> g in ids
      requires forall a :: a in pairToConflicts ==> a in neighbors && pairToConflicts[a].Keys <= neighbors.Keys
      ensures ConflictsListed(items, pairToConflicts, parents, ids)
    {
      hide *;
      items := [];
      ghost var pairs: seq<Edge>, parentOf: map<string, int> := [], map[];
      var majors := pairToConflicts.Keys;
      NothingListed(pairToConflicts, parents, ids);
      while majors != {}
        invariant majors <= pairToConflicts.Keys
        invariant ListedBut(majors, items, pairs, pairToConflicts, parents, ids, parentOf)
        decreases majors
      {
        assert Pick(majors) in majors;
        var major :| major in majors;
        MajorKnown(major);
        var parentId := ParentIdOf(major, ids);
        var more, morePairs := MinorItems(major, parentId, ids);
        ListedMore(majors, items, pairs, pairToConflicts, parents, ids, parentOf, major, parentId, more, morePairs);
        parentOf := parentOf[major := parentId];
        items, pairs := items + more, pairs + morePairs;
        majors := majors - {major};
      }
      AllListed(items, pairs, pairToConflicts, parents, ids, parentOf);
    }

    lemma MajorKnown(major: string)
      requires Valid() && major in neighbors
      ensures major in parents
    {
    }

    /** The items of one major. */
    method MinorItems(major: string, parentId: int, ids: map<string, int>) returns (items: seq<ConflictItem>,
                      ghost pairs: seq<Edge>)
      requires major in pairToConflicts && major in ids && pairToConflicts[major].Keys <= ids.Keys
      ensures forall p :: p in pairs <==> p.0 == major && HasPair(pairToConflicts, p.0, p.1)
      ensures NoRepeats(pairs)
      ensures ItemsFor(items, pairs, ids, map[major := parentId])
    {
      items, pairs := [], [];
      var minors := pairToConflicts[major].Keys;
      while minors != {}
        invariant minors <= pairToConflicts[major].Keys
        invariant forall p :: p in pairs <==> p.0 == major && p.1 !in minors && HasPair(pairToConflicts, p.0, p.1)
        invariant NoRepeats(pairs)
        invariant ItemsFor(items, pairs, ids, map[major := parentId])
        decreases minors
      {
        assert Pick(minors) in minors;
        var minor :| minor in minors;
        items := items + [ConflictItem(ids[major], ids[minor], parentId)];
        pairs := pairs + [(major, minor)];
        minors := minors - {minor};
      }
    }

    /** The port of each leaf at the merger, with the leaf's id. */
    method LeafPorts(functions: seq<string>) returns (portToNode: map<int, int>)
      requires forall f :: f in functions ==> f in neighbors
      ensures forall port :: port in portToNode <==> 8000 < port <= 8000 + |functions| && neighbors[functions[port - 8001]] == {}
      ensures forall port :: port in portToNode ==> port == 8000 + portToNode[port] + 1
    {
      portToNode := map[];
      for i := 0 to |functions|
        invariant forall port :: port in portToNode <==> 8000 < port <= 8000 + i && neighbors[functions[port - 8001]] == {}
        invariant forall port :: port in portToNode ==> port == 8000 + portToNode[port] + 1
      {
        if |neighbors[functions[i]]| == 0 {
          portToNode := portToNode[8000 + i + 1 := i];
        }
      }
    }

    /** Functions go to the machines in turn. */
    method RoundRobinPartitioning(ips: seq<string>, functions: seq<string>)
      requires functions != [] ==> ips != []
      modifies `funcToIp
      ensures funcToIp == PlacedInTurn(ips, functions, |functions|, old(funcToIp))
    {
      var currInx := 0;
      for i := 0 to |functions|
        invariant i < |functions| ==> currInx == i % |ips|
        invariant funcToIp == PlacedInTurn(ips, functions, i, old(funcToIp))
      {
        funcToIp := funcToIp[functions[i] := ips[currInx]];
        NextIndex(i, |ips|);
        currInx := (currInx + 1) % |ips|;
      }
    }

    static lemma NextIndex(i: nat, n: nat)
      requires n > 0
      ensures (i + 1) % n == (i % n + 1) % n
      ensures (i + 1) / n == if i % n == n - 1 then i / n + 1 else i / n
      ensures (i + 1) % n == if i % n == n - 1 then 0 else i % n + 1
    {
      var q, r := i / n, i % n;
      Divided(i, n);
      if r == n - 1 {
        NextMultiple(q, n);
        Divides(q + 1, n, 0, i + 1);
        Divides(1, n, 0, n);
      } else {
        Divides(q, n, r + 1, i + 1);
        Divides(0, n, r + 1, r + 1);
      }
    }

    static lemma Divided(i: nat, n: nat)
      requires n > 0
      ensures i == (i / n) * n + i % n && 0 <= i % n < n
    {
    }

    static lemma NextMultiple(q: nat, n: nat)
      ensures (q + 1) * n == q * n + n
    {
    }

    static lemma Divides(q: nat, n: nat, r: nat, x: nat)
      requires r < n && x == q * n + r
      ensures x / n == q && x % n == r
    {
      Divided(x, n);
      Uniquely(q, r, x / n, x % n, n);
    }

    static lemma Uniquely(q: nat, r: nat, p: int, s: int, n: nat)
      requires r < n && 0 <= s < n && q * n + r == p * n + s
      ensures q == p && r == s
    {
      var d := p - q;
      assert d * n == p * n - q * n;
      AtLeastOne(d, n);
    }

    static lemma AtLeastOne(d: int, n: nat)
      ensures d >= 1 ==> d * n >= n
      ensures d <= -1 ==> d * n <= -1 * n
    {
      assert d * n == (d - 1) * n + n == (d + 1) * n - n;
      assert d >= 1 ==> (d - 1) * n >= 0;
      assert d <= -1 ==> (d + 1) * n <= 0;
    }
  }

  /** The machine whose turn it is at position i. */
  function InTurn(ips: seq<string>, i: nat): string
    requires ips != []
  {
    ips[i % |ips|]
  }

  /** The placement once the first n functions have had their turn. */
  function PlacedInTurn(ips: seq<string>, functions: seq<string>, n: nat, before: map<string, string>): map<string, string>
    requires n <= |functions| && (functions != [] ==> ips != [])
  {
    if n == 0 then before else PlacedInTurn(ips, functions, n - 1, before)[functions[n - 1] := InTurn(ips, n - 1)]
  }

  /** Every function has a machine: the one whose turn it was when its name
      came up, for the last time if it came up more than once. */
  lemma {:induction false} PlacedWhenNamed(ips: seq<string>, functions: seq<string>, n: nat, before: map<string, string>, i: nat)
    requires i < n <= |functions| && ips != [] && forall k :: i < k < n ==> functions[k] != functions[i]
    ensures functions[i] in PlacedInTurn(ips, functions, n, before)
    ensures PlacedInTurn(ips, functions, n, before)[functions[i]] == InTurn(ips, i)
  {
    if i == n - 1 {
    } else {
      PlacedWhenNamed(ips, functions, n - 1, before, i);
    }
  }

  /** The functions placed on a machine, by their positions in the list. */
  function PlacedOn(functions: seq<string>, funcToIp: map<string, string>, ip: string): set<nat>
    requires forall f :: f in functions ==> f in funcToIp
  {
    set i: nat | i < |functions| && funcToIp[functions[i]] == ip
  }

  /** In turn means evenly: of m different functions on n machines, machine j
      gets m / n, and one more if j is below m % n. */
  lemma RoundRobinIsBalanced(functions: seq<string>, ips: seq<string>, j: nat)
    requires j < |ips| && forall k, l :: 0 <= k < l < |ips| ==> ips[k] != ips[l]
    requires forall k, l :: 0 <= k < l < |functions| ==> functions[k] != functions[l]
    ensures var funcToIp := PlacedInTurn(ips, functions, |functions|, map[]);
      && (forall f :: f in functions ==> f in funcToIp)
      && |PlacedOn(functions, funcToIp, ips[j])| == |functions| / |ips| + (if j < |functions| % |ips| then 1 else 0)
  {
    var funcToIp := PlacedInTurn(ips, functions, |functions|, map[]);
    forall i | 0 <= i < |functions|
      ensures functions[i] in funcToIp && funcToIp[functions[i]] == InTurn(ips, i)
    {
      PlacedWhenNamed(ips, functions, |functions|, map[], i);
    }
    EveryNth(|functions|, |ips|, j);
    assert PlacedOn(functions, funcToIp, ips[j]) == TurnsOf(|functions|, |ips|, j);
  }

  /** The positions below m that machine j of n gets. */
  function TurnsOf(m: nat, n: nat, j: nat): set<nat>
    requires n > 0
  {
    set i: nat | i < m && i % n == j
  }

  lemma TurnsStep(m: nat, n: nat, j: nat)
    requires n > 0
    ensures TurnsOf(m + 1, n, j) == TurnsOf(m, n, j) + (if m % n == j then {m} else {}) && m !in TurnsOf(m, n, j)
  {
  }

  lemma {:induction false} EveryNth(m: nat, n: nat, j: nat)
    requires j < n
    ensures |TurnsOf(m, n, j)| == m / n + if j < m % n then 1 else 0
  {
    hide *;
    if m == 0 {
      NoTurns(n, j);
      Orchestrator.Divides(0, n, 0, 0);
    } else {
      EveryNth(m - 1, n, j);
      TurnsStep(m - 1, n, j);
      Orchestrator.NextIndex(m - 1, n);
    }
  }

  lemma NoTurns(n: nat, j: nat)
    requires n > 0
    ensures TurnsOf(0, n, j) == {}
  {
  }
}

/** Services in which one first function hands every packet to parallel
    branches of one function each: from constraints to the merged packet. */
module FlatService {
  import opened Packets
  import opened MergeSpec
  import opened MergeForest
  import opened NetworkFunctions
  import opened ServiceForest
  import opened Parallelism
  import opened GraphPaths
  import opened ServiceGraph
  import C = Conservation
  import O = Orchestrator

  // ----- The merge of two or three branches -----

  /** The list pairs up all branches under one parent. */
  ghost predicate FlatList<T>(items: seq<ConflictItem>, m: LiveMap<T>, parent: int) {
    parent !in m && C.FlatItems(items, m.Keys, parent) && C.AllPairs(items, m.Keys)
  }

  lemma FlatIsIrreflexive<T>(items: seq<ConflictItem>, m: LiveMap<T>, parent: int)
    requires FlatList(items, m, parent)
    ensures Irreflexive(items)
  {
  }

  lemma SomeItem<T>(items: seq<ConflictItem>, m: LiveMap<T>, parent: int)
    requires FlatList(items, m, parent) && |m| >= 2
    ensures items != []
  {
    assert |m.Keys| == |m|;
    var a := Pick(m.Keys);
    if m.Keys == {a} {
      assert false;
    }
    var b := Pick(m.Keys - {a});
    assert C.Paired(items, a, b);
  }

  /** With two or three branches the first item on the list fires, and no other does. */
  lemma FirstItemDecides<T>(items: seq<ConflictItem>, writes: WriteTable, m: LiveMap<T>, parent: int)
    requires FlatList(items, m, parent) && Irreflexive(items) && 2 <= |m| <= 3
    ensures items != [] && Enabled(items[0], m)
    ensures Loop(items, writes, m) == Collapse(items[0], writes, m)
  {
    hide *;
    SomeItem(items, m, parent);
    FirstEnabled(items, m, parent);
    forall i | 0 <= i < |items|
      ensures !Enabled(items[i], Collapse(items[0], writes, m))
    {
      NoneAfterFirst(items, writes, m, parent, i);
    }
    SettledAtOnce(items, writes, m);
  }

  lemma FirstEnabled<T>(items: seq<ConflictItem>, m: LiveMap<T>, parent: int)
    requires FlatList(items, m, parent) && items != []
    ensures Enabled(items[0], m)
  {
  }

  lemma NoneAfterFirst<T>(items: seq<ConflictItem>, writes: WriteTable, m: LiveMap<T>, parent: int, i: nat)
    requires FlatList(items, m, parent) && |m| <= 3 && i < |items| && Enabled(items[0], m)
    ensures !Enabled(items[i], Collapse(items[0], writes, m))
  {
    hide Merged;
    var ci, first := items[i], items[0];
    if Enabled(ci, Collapse(first, writes, m)) {
      assert {ci.major, ci.minor, first.major, first.minor} <= m.Keys;
      FourDistinct(ci.major, ci.minor, first.major, first.minor, m);
    }
  }

  /** If the first item fires and none can afterwards, that is all the loop does. */
  lemma SettledAtOnce<T>(items: seq<ConflictItem>, writes: WriteTable, m: LiveMap<T>)
    requires Irreflexive(items) && items != [] && Enabled(items[0], m)
    requires forall i :: 0 <= i < |items| ==> !Enabled(items[i], Collapse(items[0], writes, m))
    ensures Loop(items, writes, m) == Collapse(items[0], writes, m)
  {
    hide Collapse, Enabled;
    var r := Collapse(items[0], writes, m);
    C.NothingEnabled(items[1..], writes, r);
    C.NothingEnabled(items, writes, r);
    assert Pass(items, writes, m) == r;
  }

  lemma FourDistinct<T>(a: int, b: int, c: int, d: int, m: LiveMap<T>)
    requires {a, b, c, d} <= m.Keys && a != b && a != c && a != d && b != c && b != d && c != d
    ensures |m| >= 4
  {
    var rest := m.Keys - {a, b, c, d};
    assert m.Keys == {a, b, c, d} + rest && |m.Keys| == |m|;
  }

  /** The third of three branches, if there is one. */
  ghost predicate Third<T>(k: int, ci: ConflictItem, m: LiveMap<T>) {
    k in m && k != ci.major && k != ci.minor
  }

  lemma CollapsedPair<T>(ci: ConflictItem, writes: WriteTable, m: LiveMap<T>)
    requires Irreflexive([ci]) && Enabled(ci, m) && ci.parent !in m && |m| == 2
    ensures FoldAll(Collapse(ci, writes, m)) == Merged(ci, writes, m)
  {
    var r := Collapse(ci, writes, m);
    assert [ci][0] == ci;
    CollapseSize(ci, Merged(ci, writes, m), m);
    assert m - {ci.major, ci.minor} == map[];
    assert r.Keys == {ci.parent};
    assert Min(r.Keys) == ci.parent && r.Keys - {ci.parent} == {};
  }

  lemma CollapsedTriple<T>(ci: ConflictItem, writes: WriteTable, m: LiveMap<T>) returns (k: int)
    requires Irreflexive([ci]) && Enabled(ci, m) && ci.parent !in m && |m| == 3
    ensures Third(k, ci, m) && forall j :: j in m ==> j == k || j == ci.major || j == ci.minor
    ensures FoldAll(Collapse(ci, writes, m)) ==
            if k < ci.parent then Overlay(m[k], Merged(ci, writes, m)) else Overlay(Merged(ci, writes, m), m[k])
  {
    var r := Collapse(ci, writes, m);
    assert [ci][0] == ci;
    CollapseSize(ci, Merged(ci, writes, m), m);
    var rest := m - {ci.major, ci.minor};
    assert |rest.Keys| == |rest| == 1;
    k := Pick(rest.Keys);
    OneKey(rest.Keys, k);
    assert forall j :: j in m && j != ci.major && j != ci.minor ==> j in rest.Keys;
    assert r.Keys == {k, ci.parent} && r[k] == m[k] && r[ci.parent] == Merged(ci, writes, m);
    FoldTwo(r, k, ci.parent);
  }

  lemma OneKey(s: set<int>, k: int)
    requires |s| == 1 && k in s
    ensures s == {k}
  {
    assert |s - {k}| == 0;
  }

  lemma FoldTwo<T>(r: LiveMap<T>, k: int, parent: int)
    requires r.Keys == {k, parent} && k != parent
    ensures FoldAll(r) == if k < parent then Overlay(r[k], r[parent]) else Overlay(r[parent], r[k])
  {
    var low, high := if k < parent then k else parent, if k < parent then parent else k;
    assert Min(r.Keys) == low && r.Keys - {low} == {high};
    assert Min({high}) == high && {high} - {high} == {};
    assert FoldAll(r) == Fold(r[low], {high}, r) == Overlay(r[low], r[high]);
  }

  lemma Single<T>(items: seq<ConflictItem>, writes: WriteTable, m: LiveMap<T>, parent: int)
    requires FlatList(items, m, parent) && Irreflexive(items) && |m| == 1
    ensures m != map[] && MergeAll(items, writes, m) == m[Min(m.Keys)]
  {
    assert |m.Keys| == |m|;
    var k := Pick(m.Keys);
    OneKey(m.Keys, k);
    C.SettlesAt(items, writes, m, k);
  }

  /** The parent's own writes do not hide the leaf's: there are at most two
      branches, or the parent does not write the field, or the leaf has the
      smaller id and so comes first in the fold. */
  ghost predicate NotHidden(branches: nat, parent: int, writes: WriteTable, leaf: int, f: Field) {
    branches == 3 ==> f !in ParentWrites(parent, writes) || leaf < parent
  }

  /** A field that a single branch writes keeps its value. */
  lemma SoleWriteArrives<T>(items: seq<ConflictItem>, writes: WriteTable, m: LiveMap<T>, parent: int, f: Field, leaf: int)
    requires FlatList(items, m, parent) && Irreflexive(items) && 1 <= |m| <= 3
    requires f in MERGEABLE && leaf in m && f in m[leaf].written
    requires forall j :: j in m && j != leaf ==> f !in m[j].written
    requires NotHidden(|m|, parent, writes, leaf, f)
    ensures m != map[] && MergeAll(items, writes, m).fields.Get(f) == m[leaf].fields.Get(f)
  {
    hide FlatList, Loop, Fold, FoldAll;
    if |m| == 1 {
      Single(items, writes, m, parent);
      assert |m.Keys| == |m|;
      OneKey(m.Keys, leaf);
    } else {
      FirstItemDecides(items, writes, m, parent);
      FirstParent(items, m, parent);
      if |m| == 2 {
        PairKeeps(items[0], writes, m, f, leaf);
      } else {
        TripleKeeps(items[0], writes, m, f, leaf);
      }
    }
  }

  lemma FirstParent<T>(items: seq<ConflictItem>, m: LiveMap<T>, parent: int)
    requires FlatList(items, m, parent) && items != []
    ensures items[0].parent == parent && parent !in m && Irreflexive([items[0]])
  {
  }

  lemma PairKeeps<T>(ci: ConflictItem, writes: WriteTable, m: LiveMap<T>, f: Field, leaf: int)
    requires Irreflexive([ci]) && Enabled(ci, m) && ci.parent !in m && |m| == 2
    requires f in MERGEABLE && leaf in m && f in m[leaf].written
    requires forall j :: j in m && j != leaf ==> f !in m[j].written
    ensures FoldAll(Collapse(ci, writes, m)).fields.Get(f) == m[leaf].fields.Get(f)
  {
    CollapsedPair(ci, writes, m);
    assert [ci][0] == ci;
    assert leaf == ci.major || leaf == ci.minor by {
      CollapseSize(ci, Merged(ci, writes, m), m);
      assert |(m - {ci.major, ci.minor}).Keys| == |m - {ci.major, ci.minor}| == 0;
      assert leaf !in (m - {ci.major, ci.minor}).Keys;
    }
    assert Merged(ci, writes, m).fields.Get(f) == Choose(f, m[ci.major], m[ci.minor]);
  }

  lemma TripleKeeps<T>(ci: ConflictItem, writes: WriteTable, m: LiveMap<T>, f: Field, leaf: int)
    requires Irreflexive([ci]) && Enabled(ci, m) && ci.parent !in m && |m| == 3
    requires f in MERGEABLE && leaf in m && f in m[leaf].written
    requires forall j :: j in m && j != leaf ==> f !in m[j].written
    requires NotHidden(3, ci.parent, writes, leaf, f)
    ensures FoldAll(Collapse(ci, writes, m)).fields.Get(f) == m[leaf].fields.Get(f)
  {
    hide FoldAll, Fold, Collapse;
    var k := CollapsedTriple(ci, writes, m);
    var merged := Merged(ci, writes, m);
    assert merged.fields.Get(f) == Choose(f, m[ci.major], m[ci.minor]);
    assert FoldAll(Collapse(ci, writes, m)).fields.Get(f) ==
           if k < ci.parent then Choose(f, m[k], merged) else Choose(f, merged, m[k]);
  }

  /** And the condition is needed: if the parent counts as writing the field
      and has the smaller id, a list that begins with the other two branches
      replaces what the third wrote by what the parent had written before. */
  lemma ThirdBranchHidden<T>(items: seq<ConflictItem>, writes: WriteTable, m: LiveMap<T>, parent: int, f: Field, leaf: int)
    requires FlatList(items, m, parent) && Irreflexive(items) && |m| == 3 && items != []
    requires Third(leaf, items[0], m) && f in ParentWrites(parent, writes) && parent < leaf
    requires f !in m[items[0].minor].written
    ensures m != map[] && MergeAll(items, writes, m).fields.Get(f) == m[items[0].major].fields.Get(f)
  {
    FirstItemDecides(items, writes, m, parent);
    var ci := items[0];
    var k := CollapsedTriple(ci, writes, m);
    assert k == leaf;
    assert Merged(ci, writes, m).fields.Get(f) == Choose(f, m[ci.major], m[ci.minor]);
  }

  /** A branch's copy of packet q: it differs in the fields that count as written. */
  ghost predicate CopyOf(q: Wire, copy: Info<Bytes>) {
    WellFormed(copy.fields) && !IsNull(copy.fields) && copy.written <= MERGEABLE && AgreeOutside(q, copy.fields, copy.written)
  }

  /** Three branches' copies of one packet, of which one alone has written the field. */
  ghost predicate SoleOfThree(items: seq<ConflictItem>, m: LiveMap<Bytes>, q: Wire, ids: set<int>, parent: int, f: Field,
                              leaf: int) {
    m.Keys == ids && FlatList(items, m, parent) && Irreflexive(items) && leaf in m && f in m[leaf].written
    && (forall j :: j in m && j != leaf ==> f !in m[j].written)
    && WellFormed(q) && !IsNull(q) && forall j :: j in m ==> CopyOf(q, m[j])
  }

  /** Whatever the order of the list and the packets, the leaf's value arrives. */
  ghost predicate AlwaysArrives(ids: set<int>, parent: int, writes: WriteTable, f: Field, leaf: int) {
    forall items, m: LiveMap<Bytes>, q: Wire {:trigger SoleOfThree(items, m, q, ids, parent, f, leaf)} ::
      SoleOfThree(items, m, q, ids, parent, f, leaf) ==>
        Irreflexive(items) && leaf in m && m != map[]
        && MergeAll(items, writes, m).fields.Get(f) == m[leaf].fields.Get(f)
  }

  /** Of three branches, one's sole write of a field arrives for every list
      and all copies of every real packet exactly when the parent does not write the field or
      the branch has the smaller id. */
  lemma ThirdBranchExactly(a: int, b: int, leaf: int, parent: int, writes: WriteTable, f: Field)
    requires a != b && a != leaf && b != leaf && parent !in {a, b, leaf} && f in MERGEABLE
    ensures AlwaysArrives({a, b, leaf}, parent, writes, f, leaf) <==> NotHidden(3, parent, writes, leaf, f)
  {
    if NotHidden(3, parent, writes, leaf, f) {
      forall items, m: LiveMap<Bytes>, q: Wire | SoleOfThree(items, m, q, {a, b, leaf}, parent, f, leaf)
        ensures m != map[] && MergeAll(items, writes, m).fields.Get(f) == m[leaf].fields.Get(f)
      {
        assert |m.Keys| == |m| && |{a, b, leaf}| == 3;
        SoleWriteArrives(items, writes, m, parent, f, leaf);
      }
    } else {
      var items, m := HidingList(a, b, leaf, parent, f);
      assert |m.Keys| == |m| && |{a, b, leaf}| == 3;
      ThirdBranchHidden(items, writes, m, parent, f, leaf);
    }
  }

  lemma HidingList(a: int, b: int, leaf: int, parent: int, f: Field) returns (items: seq<ConflictItem>, m: LiveMap<Bytes>)
    requires a != b && a != leaf && b != leaf && parent !in {a, b, leaf} && f in MERGEABLE
    ensures SoleOfThree(items, m, SamplePacket(), {a, b, leaf}, parent, f, leaf)
    ensures items != [] && items[0] == ConflictItem(a, b, parent)
    ensures m[a].fields.Get(f) != m[leaf].fields.Get(f)
  {
    hide WellFormed, SamplePacket, OtherValue, IsNull, Put;
    items := [ConflictItem(a, b, parent), ConflictItem(a, leaf, parent), ConflictItem(b, leaf, parent)];
    var before := SamplePacket();
    var after := Put(before, f, OtherValue(f));
    SampleIsReal();
    PutKeepsForm(before, f, OtherValue(f));
    PutKeepsNull(before, f, OtherValue(f));
    m := map[a := Info(before, {}), b := Info(before, {}), leaf := Info(after, {f})];
    assert CopyOf(before, Info(before, {})) && CopyOf(before, Info(after, {f}));
    forall x, y | x in m && y in m && x != y
      ensures C.Paired(items, x, y)
    {
      var i := if {x, y} == {a, b} then 0 else if {x, y} == {a, leaf} then 1 else 2;
      assert Joins(items[i], x, y);
    }
  }

  // ----- The orchestrator's part -----

  /** A first function, and branches on the level below that no other
      constraint connects. */
  ghost predicate FlatlyOrchestrated(o: O.Orchestrator, first: string, branches: set<string>)
    reads o
  {
    o.Valid() && first !in branches && first in o.neighbors && branches <= o.neighbors.Keys && branches <= o.actionTable.Keys
    && o.Edges() == ServiceEdges({}, branches, Some(first), None)
    && forall a, b :: O.HasPair(o.pairToConflicts, a, b) <==> O.LevelPair(branches, o.actionTable, a, b)
  }

  lemma NoTrees(branches: set<string>, rows: map<string, Row>, a: string, b: string)
    requires branches <= rows.Keys
    ensures Endpoints({}) == {} && (O.OnOneLevel({}, branches, rows, a, b) <==> O.LevelPair(branches, rows, a, b))
  {
  }

  /** The constraints that allow parallel runs, order constraints first. */
  ghost function AdmittedOf(dependencies: seq<Edge>, priorities: seq<Edge>, rows: map<string, Row>): seq<Edge>
    requires forall d :: d in dependencies || d in priorities ==> d.0 in rows && d.1 in rows
  {
    O.Filtered(dependencies, rows, true) + O.Filtered(priorities, rows, true)
  }

  /** The functions that the admitted constraints name are the branches; none
      of them is the first function, and every admitted pair is on one level. */
  lemma AdmittedBranches(dependencies: seq<Edge>, priorities: seq<Edge>, rows: map<string, Row>, functions: seq<string>,
                         first: string)
    requires forall d :: d in dependencies || d in priorities ==> d.0 in rows && d.1 in rows
    requires forall d :: d in dependencies || d in priorities ==> O.Named(d, functions)
    requires forall d :: d in dependencies || d in priorities ==> d.0 != d.1 && d.0 != first && d.1 != first
    ensures var branches := Constrained(AdmittedOf(dependencies, priorities, rows));
      && first !in branches && branches <= rows.Keys && (forall b :: b in branches ==> b in functions)
      && (forall a, b :: ((a, b) in dependencies || (a, b) in priorities) && Parallelizable(rows[a], rows[b]) ==>
            O.LevelPair(branches, rows, a, b))
  {
    hide Parallelizable, O.Filtered;
    var admitted := AdmittedOf(dependencies, priorities, rows);
    forall d: Edge
      ensures d in admitted <==> (d in dependencies || d in priorities) && Parallelizable(rows[d.0], rows[d.1])
    {
      O.FilteredIn(dependencies, rows, true, d);
      O.FilteredIn(priorities, rows, true, d);
    }
    assert forall d :: d in admitted ==> O.Named(d, functions) && d.0 != first && d.1 != first;
    forall a, b | ((a, b) in dependencies || (a, b) in priorities) && Parallelizable(rows[a], rows[b])
      ensures O.LevelPair(Constrained(admitted), rows, a, b)
    {
      assert (a, b) in admitted && (a, b).0 == a && (a, b).1 == b;
    }
  }

  lemma OnlyFirst(first: string)
    ensures O.HasPositionals([(first, "first")]) && O.Start([(first, "first")]) == Some(first)
    ensures O.Holder([(first, "first")], "last") == None
    ensures OrderEdges([]) == {}
  {
    assert [(first, "first")][..0] == [];
  }

  /** All that is recorded is about nodes of the graph. */
  lemma PairsAreNodes(o: O.Orchestrator, first: string, branches: set<string>)
    requires FlatlyOrchestrated(o, first, branches) && o.FieldsKept()
    ensures forall a :: a in o.pairToConflicts ==> a in o.neighbors && o.pairToConflicts[a].Keys <= o.neighbors.Keys
  {
    hide Parallelizable;
    forall a | a in o.pairToConflicts
      ensures a in o.neighbors && o.pairToConflicts[a].Keys <= o.neighbors.Keys
    {
      assert o.pairToConflicts[a].Keys != {};
      var some := Pick(o.pairToConflicts[a].Keys);
      assert O.HasPair(o.pairToConflicts, a, some) && O.LevelPair(branches, o.actionTable, a, some);
      forall b | b in o.pairToConflicts[a]
        ensures b in o.neighbors
      {
        assert O.HasPair(o.pairToConflicts, a, b) && O.LevelPair(branches, o.actionTable, a, b);
      }
    }
  }

  /** Constraints of which the order constraints all allow parallel runs,
      none of a function with itself or with the first one, make such a
      service, and a conflict list for it. */
  method OrchestrateFlat(actionTable: map<string, Row>, functions: seq<string>, first: string, dependencies: seq<Edge>,
                         priorities: seq<Edge>, ips: seq<string>, ids: map<string, int>)
    returns (o: O.Orchestrator, items: seq<ConflictItem>)
    requires forall d :: d in dependencies || d in priorities ==> d.0 in actionTable && d.1 in actionTable
    requires forall d :: d in dependencies || d in priorities ==> O.Named(d, functions)
    requires forall d :: d in dependencies || d in priorities ==> d.0 != d.1 && d.0 != first && d.1 != first
    requires forall d :: d in dependencies ==> Parallelizable(actionTable[d.0], actionTable[d.1])
    requires first in functions && ips != [] && forall f :: f in functions ==> f in ids
    ensures fresh(o) && o.actionTable == actionTable
    ensures FlatlyOrchestrated(o, first, Constrained(AdmittedOf(dependencies, priorities, actionTable)))
    ensures O.ConflictsListed(items, o.pairToConflicts, o.parents, ids)
  {
    hide O.ConflictsListed, Parallelizable, O.Filtered;
    o := MakeFlat(actionTable, functions, first, dependencies, priorities, ips);
    PairsAreNodes(o, first, Constrained(AdmittedOf(dependencies, priorities, actionTable)));
    items := o.CreateConflictsList(ids);
  }

  lemma NothingOrdered(dependencies: seq<Edge>, rows: map<string, Row>)
    requires forall d :: d in dependencies ==> d.0 in rows && d.1 in rows
    requires forall d :: d in dependencies ==> Parallelizable(rows[d.0], rows[d.1])
    ensures O.Filtered(dependencies, rows, false) == []
    ensures RankedFromRoots(OrderEdges(O.Filtered(dependencies, rows, false)), _ => 0)
  {
    hide Parallelizable;
    var ordered := O.Filtered(dependencies, rows, false);
    if ordered != [] {
      O.FilteredIn(dependencies, rows, false, ordered[0]);
      assert false;
    }
    OnlyFirst("");
  }

  method MakeFlat(actionTable: map<string, Row>, functions: seq<string>, first: string, dependencies: seq<Edge>,
                  priorities: seq<Edge>, ips: seq<string>)
    returns (o: O.Orchestrator)
    requires forall d :: d in dependencies || d in priorities ==> d.0 in actionTable && d.1 in actionTable
    requires forall d :: d in dependencies || d in priorities ==> O.Named(d, functions)
    requires forall d :: d in dependencies || d in priorities ==> d.0 != d.1 && d.0 != first && d.1 != first
    requires forall d :: d in dependencies ==> Parallelizable(actionTable[d.0], actionTable[d.1])
    requires first in functions && ips != []
    ensures fresh(o) && o.actionTable == actionTable && o.FieldsKept() && forall f :: f in o.neighbors <==> f in functions
    ensures FlatlyOrchestrated(o, first, Constrained(AdmittedOf(dependencies, priorities, actionTable)))
  {
    hide Parallelizable, OrderEdges, O.Holder, O.OnOneLevel, O.HasPair, ServiceEdges, Constrained, Endpoints, O.Filtered, RankedFromRoots;
    OnlyFirst(first);
    NothingOrdered(dependencies, actionTable);
    AdmittedBranches(dependencies, priorities, actionTable, functions, first);
    o := new O.Orchestrator(actionTable, functions, [(first, "first")], dependencies, priorities, ips, _ => 0);
    assert o.parsedOrder == [];
    assert o.parsedPriorities == AdmittedOf(dependencies, priorities, actionTable);
    var branches := Constrained(o.parsedPriorities);
    forall a, b
      ensures O.HasPair(o.pairToConflicts, a, b) <==> O.LevelPair(branches, actionTable, a, b)
    {
      NoTrees(branches, actionTable, a, b);
    }
  }

  /** Every branch has the first function as its one parent. */
  lemma FlatParents(o: O.Orchestrator, first: string, branches: set<string>, b: string)
    requires FlatlyOrchestrated(o, first, branches) && b in branches
    ensures b in o.parents && o.parents[b] == {first}
  {
    assert RootNodes({}) == {};
    forall a
      ensures a in o.parents[b] <==> a == first
    {
      assert a in o.parents[b] <==> (a, b) in o.Edges();
      assert (a, b) in o.Edges() <==> (a, b) in EdgesFrom(first, branches);
    }
  }

  ghost function IdsOf(branches: set<string>, ids: map<string, int>): set<int>
    requires branches <= ids.Keys
  {
    set b | b in branches :: ids[b]
  }

  ghost predicate DistinctIds(ids: map<string, int>, names: set<string>) {
    names <= ids.Keys && forall a, b :: a in names && b in names && a != b ==> ids[a] != ids[b]
  }

  /** Every two branches may run in parallel, in one direction at least. */
  ghost predicate MutuallyParallel(branches: set<string>, rows: map<string, Row>) {
    branches <= rows.Keys
    && forall a, b :: a in branches && b in branches && a != b ==> Parallelizable(rows[a], rows[b]) || Parallelizable(rows[b], rows[a])
  }

  /** The conflict list the orchestrator hands to the merger pairs up all
      branches, with the first function as the one parent. */
  lemma OrchestratedListIsFlat<T>(o: O.Orchestrator, first: string, branches: set<string>, ids: map<string, int>,
                                  items: seq<ConflictItem>, m: LiveMap<T>)
    requires FlatlyOrchestrated(o, first, branches) && MutuallyParallel(branches, o.actionTable)
    requires DistinctIds(ids, branches + {first})
    requires O.ConflictsListed(items, o.pairToConflicts, o.parents, ids)
    requires m.Keys == IdsOf(branches, ids)
    ensures FlatList(items, m, ids[first])
  {
    hide Parallelizable, FlatlyOrchestrated, O.ListsConflicts;
    var pairs, parentOf :| O.ListsConflicts(items, pairs, o.pairToConflicts, o.parents, ids, parentOf);
    forall i | 0 <= i < |items|
      ensures items[i].parent == ids[first] && items[i].major != items[i].minor && items[i].major in m && items[i].minor in m
    {
      ItemIsFlat(o, first, branches, ids, items, pairs, parentOf, i);
    }
    forall x, y | x in m && y in m && x != y
      ensures C.Paired(items, x, y)
    {
      var a :| a in branches && ids[a] == x;
      var b :| b in branches && ids[b] == y;
      BranchesPaired(o, first, branches, ids, items, pairs, parentOf, a, b);
    }
    FirstIsNoBranch(o, first, branches, ids);
  }

  lemma FirstIsNoBranch(o: O.Orchestrator, first: string, branches: set<string>, ids: map<string, int>)
    requires FlatlyOrchestrated(o, first, branches) && DistinctIds(ids, branches + {first})
    ensures ids[first] !in IdsOf(branches, ids)
  {
  }

  lemma ItemIsFlat(o: O.Orchestrator, first: string, branches: set<string>, ids: map<string, int>,
                   items: seq<ConflictItem>, pairs: seq<Edge>, parentOf: map<string, int>, i: nat)
    requires FlatlyOrchestrated(o, first, branches) && DistinctIds(ids, branches + {first}) && i < |items|
    requires O.ListsConflicts(items, pairs, o.pairToConflicts, o.parents, ids, parentOf)
    ensures items[i].parent == ids[first] && items[i].major != items[i].minor
    ensures items[i].major in IdsOf(branches, ids) && items[i].minor in IdsOf(branches, ids)
  {
    hide Parallelizable;
    var (a, b) := pairs[i];
    assert (a, b) in pairs && O.ItemFor(items[i], pairs[i], ids, parentOf);
    assert O.LevelPair(branches, o.actionTable, a, b);
    FlatParents(o, first, branches, a);
  }

  lemma BranchesPaired(o: O.Orchestrator, first: string, branches: set<string>, ids: map<string, int>,
                       items: seq<ConflictItem>, pairs: seq<Edge>, parentOf: map<string, int>, a: string, b: string)
    requires FlatlyOrchestrated(o, first, branches) && MutuallyParallel(branches, o.actionTable)
    requires DistinctIds(ids, branches + {first}) && a in branches && b in branches && a != b
    requires O.ListsConflicts(items, pairs, o.pairToConflicts, o.parents, ids, parentOf)
    ensures C.Paired(items, ids[a], ids[b])
  {
    hide Parallelizable;
    var pair := if Parallelizable(o.actionTable[a], o.actionTable[b]) then (a, b) else (b, a);
    assert O.LevelPair(branches, o.actionTable, pair.0, pair.1);
    assert O.HasPair(o.pairToConflicts, pair.0, pair.1) && pair == (pair.0, pair.1);
    var i :| 0 <= i < |pairs| && pairs[i] == pair;
    assert O.ItemFor(items[i], pairs[i], ids, parentOf);
    assert Joins(items[i], ids[a], ids[b]);
  }

  /** So from four branches on, the orchestrator's own list makes the merger
      lose merges, whatever order the list is in. */
  lemma OrchestratedLosses<T>(o: O.Orchestrator, first: string, branches: set<string>, ids: map<string, int>,
                              items: seq<ConflictItem>, writes: WriteTable, m: LiveMap<T>)
    requires FlatlyOrchestrated(o, first, branches) && MutuallyParallel(branches, o.actionTable)
    requires DistinctIds(ids, branches + {first}) && branches != {}
    requires O.ConflictsListed(items, o.pairToConflicts, o.parents, ids)
    requires m.Keys == IdsOf(branches, ids)
    ensures Irreflexive(items)
    ensures Losses(items, writes, m) == (if |branches| < 2 then 0 else |branches| / 2 - 1)
    ensures Losses(items, writes, m) == 0 <==> |branches| <= 3
  {
    OrchestratedListIsFlat(o, first, branches, ids, items, m);
    FlatIsIrreflexive(items, m, ids[first]);
    IdCount(branches, ids);
    assert |m.Keys| == |m|;
    C.FlatServiceLosses(items, writes, m, ids[first]);
  }

  lemma {:induction false} IdCount(branches: set<string>, ids: map<string, int>)
    requires DistinctIds(ids, branches)
    ensures |IdsOf(branches, ids)| == |branches|
  {
    if branches == {} {
    } else {
      var b := Pick(branches);
      IdCount(branches - {b}, ids);
      assert IdsOf(branches, ids) == IdsOf(branches - {b}, ids) + {ids[b]};
    }
  }

  // ----- What the merger sends on -----

  /** The branches as trees of one node each. */
  function BranchTrees(bs: seq<int>): (ts: seq<Tree>)
    ensures |ts| == |bs| && forall i :: 0 <= i < |bs| ==> ts[i] == Leaf(bs[i])
  {
    seq(|bs|, i requires 0 <= i < |bs| => Leaf(bs[i]))
  }

  ghost predicate NoneTwice<T>(s: seq<T>) {
    forall i, j :: 0 <= i < j < |s| ==> s[i] != s[j]
  }

  /** The branch's packet is what its function made of its copy of q. */
  ghost predicate HoldsBranch(m: LiveMap<Bytes>, b: int, service: Service, q: Wire) {
    b in m && m[b] == Info(service.run(b, q), service.row(b).writeSet)
  }

  ghost predicate HoldsBranches(m: LiveMap<Bytes>, bs: seq<int>, service: Service, q: Wire) {
    |m| == |bs| && (forall k :: k in m <==> k in bs)
    && forall b {:trigger HoldsBranch(m, b, service, q)} :: b in bs ==> HoldsBranch(m, b, service, q)
  }

  lemma BranchesDistinct(bs: seq<int>)
    requires NoneTwice(bs)
    ensures DistinctForest(BranchTrees(bs))
    ensures forall k :: k in ForestLeafIds(BranchTrees(bs)) <==> k in bs
  {
    var ts := BranchTrees(bs);
    assert forall i :: 0 <= i < |ts| ==> Ids(ts[i]) == LeafIds(ts[i]) == {bs[i]};
    forall k | k in bs
      ensures k in ForestLeafIds(ts)
    {
      var i :| 0 <= i < |bs| && bs[i] == k;
      assert k in LeafIds(ts[i]);
    }
  }

  lemma {:induction false} MemberCount<T(!new)>(bs: seq<T>, s: set<T>)
    requires NoneTwice(bs) && forall k :: k in s <==> k in bs
    ensures |s| == |bs|
  {
    if bs == [] {
      assert s == {};
    } else {
      var rest := bs[1..];
      assert bs[0] !in rest && bs == [bs[0]] + rest;
      assert forall k :: k in s - {bs[0]} <==> k in rest;
      MemberCount(rest, s - {bs[0]});
    }
  }

  lemma BranchPackets(bs: seq<int>, service: Service, q: Wire)
    requires NoneTwice(bs)
    ensures HoldsBranches(ForestLeafPackets(BranchTrees(bs), service, q), bs, service, q)
  {
    var ts := BranchTrees(bs);
    var m := ForestLeafPackets(ts, service, q);
    BranchesDistinct(bs);
    MemberCount(bs, m.Keys);
    assert |m.Keys| == |m|;
    forall b | b in bs
      ensures HoldsBranch(m, b, service, q)
    {
      var i :| 0 <= i < |bs| && bs[i] == b;
      ForestCarries(ts, service, q, i);
      assert ts[i] == Leaf(b) && b in LeafIds(ts[i]);
    }
  }

  /** Each branch's packet differs from the one it was given in its own fields only. */
  lemma BranchKeeps(b: int, service: Service, writes: WriteTable, q: Wire)
    requires FaithfulAt(b, service, writes) && !IsNull(q) && !IsNull(service.run(b, q))
    ensures AgreeOutside(q, service.run(b, q), service.row(b).writeSet)
    ensures service.row(b).writeSet <= MERGEABLE
  {
    assert NodeBehaviour(b, service)(q) == service.run(b, q);
  }

  /** No parent write hides a branch's write. */
  ghost predicate NoneHidden(bs: seq<int>, parent: int, row: int -> Profile, writes: WriteTable) {
    forall b, f :: b in bs && f in row(b).writeSet ==> NotHidden(|bs|, parent, writes, b, f)
  }

  /** Branches that keep to their rows and write different fields, their
      packets, none of them null, and the list for them. */
  ghost predicate Ready(items: seq<ConflictItem>, m: LiveMap<Bytes>, bs: seq<int>, parent: int, service: Service,
                        writes: WriteTable, q: Wire) {
    FlatList(items, m, parent) && Irreflexive(items) && 1 <= |bs| <= 3 && !IsNull(q)
    && HoldsBranches(m, bs, service, q)
    && (forall k :: k in m ==> !IsNull(m[k].fields))
    && (forall b {:trigger FaithfulAt(b, service, writes)} :: b in bs ==> FaithfulAt(b, service, writes))
    && (forall a, b, f :: a in bs && b in bs && a != b && f in service.row(a).writeSet ==> f !in service.row(b).writeSet)
    && NoneHidden(bs, parent, service.row, writes)
  }

  lemma WrittenField(items: seq<ConflictItem>, m: LiveMap<Bytes>, bs: seq<int>, parent: int, service: Service, writes: WriteTable,
                     q: Wire, b: int, f: Field)
    requires Ready(items, m, bs, parent, service, writes, q) && b in bs && f in service.row(b).writeSet
    ensures m != map[] && MergeAll(items, writes, m).fields.Get(f) == service.run(b, q).Get(f)
  {
    hide FlatList, Respects, WellProfiled;
    assert HoldsBranch(m, b, service, q);
    BranchKeeps(b, service, writes, q);
    forall k | k in m && k != b
      ensures f !in m[k].written
    {
      assert HoldsBranch(m, k, service, q);
    }
    SoleWriteArrives(items, writes, m, parent, f, b);
  }

  lemma UnwrittenField(items: seq<ConflictItem>, m: LiveMap<Bytes>, bs: seq<int>, parent: int, service: Service,
                       writes: WriteTable,
                       q: Wire, f: Field)
    requires Ready(items, m, bs, parent, service, writes, q) && forall b :: b in bs ==> f !in service.row(b).writeSet
    ensures m != map[] && MergeAll(items, writes, m).fields.Get(f) == q.Get(f)
    ensures MergeAll(items, writes, m).fields.id == q.id
  {
    hide FlatList, Respects, WellProfiled;
    forall k | k in m
      ensures m[k].fields.Get(f) == q.Get(f) && m[k].fields.id == q.id
    {
      assert HoldsBranch(m, k, service, q);
      BranchKeeps(k, service, writes, q);
    }
    C.ValueCloses(f, q.Get(f));
    C.MergeKeeps(items, writes, m, C.HasValue(f, q.Get(f)));
    C.IdCloses(q.id);
    C.MergeKeeps(items, writes, m, C.HasId(q.id));
  }

  /** The merge of the branches has in every field what the sequential run has. */
  lemma MergedField(items: seq<ConflictItem>, m: LiveMap<Bytes>, bs: seq<int>, parent: int, service: Service, writes: WriteTable,
                    q: Wire, f: Field)
    requires Ready(items, m, bs, parent, service, writes, q) && NoneTwice(bs)
    ensures m != map[] && MergeAll(items, writes, m).fields.Get(f) == FieldAfter(BranchTrees(bs), service, q, f)
  {
    hide Ready;
    var ts := BranchTrees(bs);
    if i :| 0 <= i < |bs| && f in service.row(bs[i]).writeSet {
      WrittenField(items, m, bs, parent, service, writes, q, bs[i], f);
      forall j | 0 <= j < i
        ensures f !in TreeProfile(ts[j], service.row).writeSet
      {
        OthersDoNotWrite(items, m, bs, parent, service, writes, q, bs[i], bs[j], f);
      }
      FieldAfterAt(ts, service, q, f, i);
    } else {
      assert forall b :: b in bs ==> f !in service.row(b).writeSet;
      UnwrittenField(items, m, bs, parent, service, writes, q, f);
      NoTreeWrites(ts, service, f);
    }
  }

  lemma OthersDoNotWrite(items: seq<ConflictItem>, m: LiveMap<Bytes>, bs: seq<int>, parent: int, service: Service,
                         writes: WriteTable,
                         q: Wire, a: int, b: int, f: Field)
    requires Ready(items, m, bs, parent, service, writes, q)
    requires a in bs && b in bs && a != b && f in service.row(a).writeSet
    ensures f !in service.row(b).writeSet
  {
  }

  lemma MergedId(items: seq<ConflictItem>, m: LiveMap<Bytes>, bs: seq<int>, parent: int, service: Service,
                 writes: WriteTable, q: Wire)
    requires Ready(items, m, bs, parent, service, writes, q)
    ensures m != map[] && MergeAll(items, writes, m).fields.id == q.id
  {
    hide FlatList, Respects;
    forall b | b in bs
      ensures SIP !in service.row(b).writeSet
    {
      assert FaithfulAt(b, service, writes);
    }
    UnwrittenField(items, m, bs, parent, service, writes, q, SIP);
  }

  /** Up to three branches under one parent: the merger sends on what the
      branches' functions make of q one after the other. */
  lemma BranchesMergeSequentially(items: seq<ConflictItem>, bs: seq<int>, parent: int, service: Service,
                                  writes: WriteTable, q: Wire)
    requires NoneTwice(bs) && 1 <= |bs| <= 3 && NoneHidden(bs, parent, service.row, writes)
    requires forall b {:trigger FaithfulAt(b, service, writes)} :: b in bs ==> FaithfulAt(b, service, writes)
    requires IndependentForest(BranchTrees(bs), service.row)
    requires FlatList(items, ForestLeafPackets(BranchTrees(bs), service, q), parent)
    ensures Irreflexive(items) && ForestLeafPackets(BranchTrees(bs), service, q) != map[]
    ensures MergeOutcome(items, writes, ForestLeafPackets(BranchTrees(bs), service, q))
            == OutcomeOf(RunForest(BranchTrees(bs), service, q))
  {
    hide *;
    var ts := BranchTrees(bs);
    var m := ForestLeafPackets(ts, service, q);
    BranchPackets(bs, service, q);
    BranchesDistinct(bs);
    BranchesFaithful(bs, service, writes);
    FlatIsIrreflexive(items, m, parent);
    DifferentWrites(bs, service, writes);
    SomePacket(ts, service, q);
    NullForest(ts, service, writes, q);
    ForestRun(ts, service, writes, q);
    if !(exists k :: k in m && IsNull(m[k].fields)) {
      MakesReady(items, m, bs, parent, service, writes, q);
    }
    SendsOn(items, m, bs, parent, service, writes, q);
  }

  lemma MakesReady(items: seq<ConflictItem>, m: LiveMap<Bytes>, bs: seq<int>, parent: int, service: Service,
                   writes: WriteTable, q: Wire)
    requires FlatList(items, m, parent) && Irreflexive(items) && 1 <= |bs| <= 3 && !IsNull(q)
    requires HoldsBranches(m, bs, service, q) && !(exists k :: k in m && IsNull(m[k].fields))
    requires forall b {:trigger FaithfulAt(b, service, writes)} :: b in bs ==> FaithfulAt(b, service, writes)
    requires forall a, b, f :: a in bs && b in bs && a != b && f in service.row(a).writeSet ==> f !in service.row(b).writeSet
    requires NoneHidden(bs, parent, service.row, writes)
    ensures Ready(items, m, bs, parent, service, writes, q)
  {
    hide FlatList, Irreflexive, IsNull, HoldsBranches, FaithfulAt, NoneHidden;
  }

  lemma SendsOn(items: seq<ConflictItem>, m: LiveMap<Bytes>, bs: seq<int>, parent: int, service: Service,
                writes: WriteTable, q: Wire)
    requires NoneTwice(bs) && m != map[] && Irreflexive(items)
    requires !(exists k :: k in m && IsNull(m[k].fields)) ==> Ready(items, m, bs, parent, service, writes, q)
    requires var end := RunForest(BranchTrees(bs), service, q);
      (IsNull(end) <==> exists k :: k in m && IsNull(m[k].fields))
      && (!IsNull(end) ==> end.id == q.id && forall f: Field :: end.Get(f) == FieldAfter(BranchTrees(bs), service, q, f))
    ensures MergeOutcome(items, writes, m) == OutcomeOf(RunForest(BranchTrees(bs), service, q))
  {
    hide Ready, IsNull, FieldAfter, RunForest;
    DropTheorem(items, writes, m);
    var end := RunForest(BranchTrees(bs), service, q);
    if !IsNull(end) {
      forall f: Field
        ensures MergeAll(items, writes, m).fields.Get(f) == end.Get(f)
      {
        MergedField(items, m, bs, parent, service, writes, q, f);
      }
      MergedId(items, m, bs, parent, service, writes, q);
      AgreeEverywhere(MergeAll(items, writes, m).fields, end);
    }
  }

  lemma BranchesFaithful(bs: seq<int>, service: Service, writes: WriteTable)
    requires forall b {:trigger FaithfulAt(b, service, writes)} :: b in bs ==> FaithfulAt(b, service, writes)
    ensures FaithfulForest(BranchTrees(bs), service, writes)
  {
    var ts := BranchTrees(bs);
    forall i | 0 <= i < |ts|
      ensures Faithful(ts[i], service, writes)
    {
      assert FaithfulAt(bs[i], service, writes) && Ids(ts[i]) == {bs[i]};
    }
  }

  lemma DifferentWrites(bs: seq<int>, service: Service, writes: WriteTable)
    requires forall b {:trigger FaithfulAt(b, service, writes)} :: b in bs ==> FaithfulAt(b, service, writes)
    requires NoneTwice(bs) && IndependentForest(BranchTrees(bs), service.row)
    ensures forall a, b, f :: a in bs && b in bs && a != b && f in service.row(a).writeSet ==> f !in service.row(b).writeSet
  {
    var ts := BranchTrees(bs);
    forall a, b, f | a in bs && b in bs && a != b && f in service.row(a).writeSet
      ensures f !in service.row(b).writeSet
    {
      var i :| 0 <= i < |bs| && bs[i] == a;
      var j :| 0 <= j < |bs| && bs[j] == b;
      assert FaithfulAt(a, service, writes) && FaithfulAt(b, service, writes);
      var early, late := if i < j then ts[i] else ts[j], if i < j then ts[j] else ts[i];
      assert TreeProfile(early, service.row).writeSet !! TreeProfile(late, service.row).readSet;
    }
  }

  // ----- From constraints to the wire -----

  function Numbers(names: seq<string>, ids: map<string, int>): (bs: seq<int>)
    requires forall n :: n in names ==> n in ids
    ensures |bs| == |names| && forall i :: 0 <= i < |bs| ==> bs[i] == ids[names[i]]
  {
    seq(|names|, i requires 0 <= i < |names| => ids[names[i]])
  }

  ghost function SetOf(names: seq<string>): set<string> {
    set n | n in names
  }

  lemma NumbersDistinct(names: seq<string>, ids: map<string, int>)
    requires NoneTwice(names) && DistinctIds(ids, SetOf(names))
    ensures forall n :: n in names ==> n in ids
    ensures NoneTwice(Numbers(names, ids))
    ensures forall k :: k in Numbers(names, ids) <==> k in IdsOf(SetOf(names), ids)
  {
    var bs := Numbers(names, ids);
    forall n | n in names
      ensures n in ids
    {
      assert n in SetOf(names);
    }
    forall i, j | 0 <= i < j < |bs|
      ensures bs[i] != bs[j]
    {
      assert names[i] in SetOf(names) && names[j] in SetOf(names);
    }
    forall k | k in IdsOf(SetOf(names), ids)
      ensures k in bs
    {
      var n :| n in SetOf(names) && k == ids[n];
      var i :| 0 <= i < |names| && names[i] == n;
      assert bs[i] == k;
    }
    forall k | k in bs
      ensures k in IdsOf(SetOf(names), ids)
    {
      var i :| 0 <= i < |bs| && bs[i] == k;
      assert names[i] in SetOf(names);
    }
  }

  /** The function keeps to its row of the orchestrator's table, and the
      merger's table has the same write set. */
  ghost predicate KeepsToRow(name: string, rows: map<string, Row>, ids: map<string, int>, service: Service, writes: WriteTable) {
    name in rows && name in ids && WellFormedRow(rows[name])
    && service.row(ids[name]) == ProfileOf(rows[name]) && FaithfulAt(ids[name], service, writes)
  }

  /** In the order of the list every branch may run in parallel with the later ones. */
  ghost predicate Admitted(names: seq<string>, rows: map<string, Row>)
    requires forall n :: n in names ==> n in rows
  {
    forall i, j :: 0 <= i < j < |names| ==> Parallelizable(rows[names[i]], rows[names[j]])
  }

  /** No field is written by two branches. */
  ghost predicate NothingShared(names: seq<string>, rows: map<string, Row>)
    requires forall n :: n in names ==> n in rows
  {
    forall i, j :: 0 <= i < j < |names| ==> ProfileOf(rows[names[i]]).writeSet !! ProfileOf(rows[names[j]]).writeSet
  }

  lemma AdmittedIsIndependent(names: seq<string>, rows: map<string, Row>, ids: map<string, int>, service: Service,
                              writes: WriteTable)
    requires forall n :: n in names ==> n in rows && n in ids
    requires forall n {:trigger KeepsToRow(n, rows, ids, service, writes)} :: n in names ==> KeepsToRow(n, rows, ids, service, writes)
    requires Admitted(names, rows) && NothingShared(names, rows)
    ensures IndependentForest(BranchTrees(Numbers(names, ids)), service.row)
    ensures forall b {:trigger FaithfulAt(b, service, writes)} :: b in Numbers(names, ids) ==> FaithfulAt(b, service, writes)
  {
    hide Parallelizable, ProfileOf, WellFormedRow, FaithfulAt;
    var ts := BranchTrees(Numbers(names, ids));
    forall i, j | 0 <= i < j < |ts|
      ensures TreeProfile(ts[i], service.row).writeSet !! TreeProfile(ts[j], service.row).readSet
    {
      var a, b := names[i], names[j];
      assert KeepsToRow(a, rows, ids, service, writes) && KeepsToRow(b, rows, ids, service, writes);
      CheckByProfiles(rows[a], rows[b]);
      var s, t := ProfileOf(rows[a]), ProfileOf(rows[b]);
      forall f | f in s.writeSet
        ensures f !in t.readSet
      {
        assert f in t.readSet ==> f in s.writeSet * t.readSet;
      }
    }
    forall b | b in Numbers(names, ids)
      ensures FaithfulAt(b, service, writes)
    {
      var i :| 0 <= i < |names| && ids[names[i]] == b;
      assert KeepsToRow(names[i], rows, ids, service, writes);
    }
  }

  lemma AdmittedIsMutual(names: seq<string>, rows: map<string, Row>)
    requires forall n :: n in names ==> n in rows
    requires Admitted(names, rows)
    ensures MutuallyParallel(SetOf(names), rows)
  {
    hide Parallelizable, ProfileOf;
    forall a, b | a in SetOf(names) && b in SetOf(names) && a != b
      ensures Parallelizable(rows[a], rows[b]) || Parallelizable(rows[b], rows[a])
    {
      var i :| 0 <= i < |names| && names[i] == a;
      var j :| 0 <= j < |names| && names[j] == b;
    }
  }

  lemma BranchNames(names: seq<string>, first: string, ids: map<string, int>)
    requires DistinctIds(ids, SetOf(names) + {first})
    ensures first in ids && SetOf(names) <= ids.Keys && DistinctIds(ids, SetOf(names))
  {
  }

  lemma KeysAreIds<T>(bs: seq<int>, m: LiveMap<T>, ids: set<int>)
    requires (forall k :: k in m.Keys <==> k in bs) && forall k :: k in bs <==> k in ids
    ensures m.Keys == ids
  {
    assert forall k :: k in m.Keys <==> k in ids;
  }

  /** From the constraints to the wire: up to three branches that the
      orchestrator admits in this order, with different fields to write, give
      through its own conflict list and the merger what they would give one
      after the other on the packet q that the first function hands on; with
      three branches, provided the first function's writes hide none of theirs. */
  lemma FlatServiceIsSequential(o: O.Orchestrator, first: string, names: seq<string>, ids: map<string, int>,
                                items: seq<ConflictItem>,
                                service: Service, writes: WriteTable, q: Wire)
    requires NoneTwice(names) && FlatlyOrchestrated(o, first, SetOf(names))
    requires DistinctIds(ids, SetOf(names) + {first})
    requires O.ConflictsListed(items, o.pairToConflicts, o.parents, ids)
    requires forall n :: n in names ==> n in o.actionTable && n in ids
    requires forall n {:trigger KeepsToRow(n, o.actionTable, ids, service, writes)} ::
               n in names ==> KeepsToRow(n, o.actionTable, ids, service, writes)
    requires Admitted(names, o.actionTable) && NothingShared(names, o.actionTable)
    requires 1 <= |names| <= 3 && NoneHidden(Numbers(names, ids), ids[first], service.row, writes)
    ensures var ts := BranchTrees(Numbers(names, ids));
      && Irreflexive(items) && ForestLeafPackets(ts, service, q) != map[]
      && MergeOutcome(items, writes, ForestLeafPackets(ts, service, q)) == OutcomeOf(RunForest(ts, service, q))
  {
    hide *;
    BranchNames(names, first, ids);
    NumbersDistinct(names, ids);
    var bs := Numbers(names, ids);
    var m := ForestLeafPackets(BranchTrees(bs), service, q);
    BranchesDistinct(bs);
    AdmittedIsIndependent(names, o.actionTable, ids, service, writes);
    AdmittedIsMutual(names, o.actionTable);
    KeysAreIds(bs, m, IdsOf(SetOf(names), ids));
    OrchestratedListIsFlat(o, first, SetOf(names), ids, items, m);
    BranchesMergeSequentially(items, bs, ids[first], service, writes, q);
  }

  // ----- Graphs the merger has nothing to do for -----

  /** With a last function and some constraint, the last function is the only
      node without neighbours, whatever the constraints say. */
  lemma OnlyLastIsLeaf(o: O.Orchestrator, first: string, last: string, priorities: set<string>, rank: Rank, f: string)
    requires o.Valid() && f in o.neighbors && first != last
    requires Ranked(OrderEdges(o.parsedOrder), rank) && (o.parsedOrder != [] || priorities != {})
    requires o.Edges() == ServiceEdges(OrderEdges(o.parsedOrder), priorities, Some(first), Some(last))
    requires ApartFrom(OrderEdges(o.parsedOrder), priorities, first) && ApartFrom(OrderEdges(o.parsedOrder), priorities, last)
    requires f == first || f == last || f in Endpoints(OrderEdges(o.parsedOrder)) || f in priorities
    ensures o.neighbors[f] == {} <==> f == last
  {
    var order := OrderEdges(o.parsedOrder);
    assert o.parsedOrder != [] ==> o.parsedOrder[0] in order;
    ServiceGraphShape(order, priorities, first, last, rank, f);
    if o.neighbors[f] != {} {
      assert (f, Pick(o.neighbors[f])) in o.Edges() && (f, Pick(o.neighbors[f])).0 == f;
    }
    assert forall e :: e in o.Edges() ==> e == (e.0, e.1) && e.1 in o.neighbors[e.0];
  }

  /** Then one packet for each id is all the merger gets, and it passes it on
      as it is: no conflict item plays a part. */
  lemma SoleLeafPassesThrough(items: seq<ConflictItem>, writes: WriteTable, m: LiveMap<Bytes>, leaf: int)
    requires Irreflexive(items) && m.Keys == {leaf}
    ensures m != map[] && MergeOutcome(items, writes, m) == OutcomeOf(m[leaf].fields)
  {
    DropTheorem(items, writes, m);
    C.SettlesAt(items, writes, m, leaf);
  }

  /** Two branches without an item: a field neither leaf's own function
      writes, such as one written further up in one of the branches, comes
      from the leaf with the smaller id. */
  lemma UnlistedBranches<T>(items: seq<ConflictItem>, writes: WriteTable, m: LiveMap<T>, a: int, b: int, f: Field)
    requires Irreflexive(items) && m.Keys == {a, b} && a != b
    requires forall i :: 0 <= i < |items| ==> !Enabled(items[i], m)
    requires f !in m[a].written && f !in m[b].written
    ensures m != map[] && MergeAll(items, writes, m).fields.Get(f) == m[if a < b then a else b].fields.Get(f)
  {
    C.NothingEnabled(items, writes, m);
    FoldTwo(m, a, b);
  }
}

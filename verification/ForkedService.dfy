/** Services with two leaves whose paths meet further up: the orchestrator
    lists the leaves against each other, each at its own parent, which need
    not be the function where the paths part. */
module ForkedService {
  import opened Packets
  import opened MergeSpec
  import opened MergeForest
  import opened NetworkFunctions
  import opened ServiceForest
  import opened HiddenWrites
  import opened Parallelism
  import opened GraphPaths
  import opened ServiceGraph
  import opened OrchestratedForest
  import F = FlatService
  import O = Orchestrator

  // ----- Two packets -----

  /** A path of functions. */
  predicate Straight(t: Tree) {
    match t
    case Leaf(_) => true
    case Chain(_, below) => Straight(below)
    case Node(_, _, _) => false
  }

  lemma {:induction false} StraightLeaf(items: seq<ConflictItem>, t: Tree, row: int -> Profile)
    requires Straight(t)
    ensures LeafIds(t) == {Key(t)} && Covered(t, items) && NothingHidden(items, t, row)
  {
    match t
    case Leaf(_) =>
    case Chain(_, below) => StraightLeaf(items, below, row);
  }

  /** All items are between the two nodes. */
  ghost predicate AllJoin(items: seq<ConflictItem>, a: int, b: int) {
    items != [] && a != b && forall i :: 0 <= i < |items| ==> Joins(items[i], a, b)
  }

  /** Two packets are merged by the first item, at whatever parent. */
  lemma FirstItemMerges<T>(items: seq<ConflictItem>, writes: WriteTable, m: LiveMap<T>, a: int, b: int)
    requires AllJoin(items, a, b) && m.Keys == {a, b}
    ensures Irreflexive(items) && m != map[] && Enabled(items[0], m)
    ensures MergeAll(items, writes, m).fields == Overlay(m[items[0].major], m[items[0].minor]).fields
  {
    hide Merged, Loop, Pass;
    var ci := items[0];
    var r := Collapse(ci, writes, m);
    assert r.Keys == {ci.parent} && r[ci.parent] == Merged(ci, writes, m) by {
      assert m - {ci.major, ci.minor} == map[];
    }
    forall i | 0 <= i < |items|
      ensures !Enabled(items[i], r)
    {
      assert Joins(items[i], a, b);
    }
    F.SettledAtOnce(items, writes, m);
    assert Min(r.Keys) == ci.parent && r.Keys - {ci.parent} == {};
    MergedFields(ci, writes, m);
  }

  lemma MergedFields<T>(ci: ConflictItem, writes: WriteTable, m: LiveMap<T>)
    requires Enabled(ci, m)
    ensures Merged(ci, writes, m).fields == Overlay(m[ci.major], m[ci.minor]).fields
  {
  }

  /** A node over two paths. */
  ghost predicate TwoPaths(t: Tree) {
    t.Node? && Straight(t.left) && Straight(t.right) && Distinct(t)
  }

  lemma TwoLeaves(t: Tree, service: Service, p: Wire)
    requires TwoPaths(t)
    ensures Key(t.left) != Key(t.right)
    ensures ForestLeafPackets([t], service, p).Keys == {Key(t.left), Key(t.right)}
  {
    hide ForestLeafPackets, Ids, LeafIds, NothingHidden, Covered, Straight;
    StraightLeaf([], t.left, service.row);
    StraightLeaf([], t.right, service.row);
    LeavesOfNode(t);
    assert ForestLeafIds([t]) == LeafIds(t) by {
      assert [t][0] == t;
    }
    assert Key(t.left) in Ids(t.left) && Key(t.right) in Ids(t.right);
  }

  lemma LeavesOfNode(t: Tree)
    requires TwoPaths(t)
    ensures LeafIds(t) == LeafIds(t.left) + LeafIds(t.right) && Ids(t.left) !! Ids(t.right)
  {
  }

  /** Lists that begin with the same two members give the same packet. */
  lemma SameStart(items: seq<ConflictItem>, items': seq<ConflictItem>, t: Tree, service: Service, writes: WriteTable, p: Wire)
    requires TwoPaths(t) && AllJoin(items, Key(t.left), Key(t.right)) && AllJoin(items', Key(t.left), Key(t.right))
    requires items[0].major == items'[0].major
    ensures SequentialFor(items, [t], service, writes, p) <==> SequentialFor(items', [t], service, writes, p)
  {
    hide ForestLeafPackets, RunForest, MergeOutcome, MergeAll, Straight, Distinct, Key;
    TwoLeaves(t, service, p);
    var m := ForestLeafPackets([t], service, p);
    FirstItemMerges(items, writes, m, Key(t.left), Key(t.right));
    FirstItemMerges(items', writes, m, Key(t.left), Key(t.right));
    assert Joins(items[0], Key(t.left), Key(t.right)) && Joins(items'[0], Key(t.left), Key(t.right));
    assert items[0].minor == items'[0].minor;
    DropTheorem(items, writes, m);
    DropTheorem(items', writes, m);
  }

  // ----- One direction -----

  /** One item at the node itself, in the given direction. */
  function OneWay(t: Tree, major: int): seq<ConflictItem>
    requires t.Node?
  {
    [ConflictItem(major, if major == Key(t.left) then Key(t.right) else Key(t.left), t.id)]
  }

  lemma OneWayCounts(t: Tree, major: int, row: int -> Profile)
    requires TwoPaths(t) && major in {Key(t.left), Key(t.right)}
    ensures DistinctForest([t]) && ListFor(OneWay(t, major), [t]) && AllJoin(OneWay(t, major), Key(t.left), Key(t.right))
    ensures AllCounted(OneWay(t, major), [t], row) <==>
            Hidden(if major == Key(t.left) then t.right else t.left, row) == {}
  {
    hide Hidden, Straight, Key, Ids;
    var items := OneWay(t, major);
    StraightLeaf(items, t.left, row);
    StraightLeaf(items, t.right, row);
    assert Key(t.left) in Ids(t.left) && Key(t.right) in Ids(t.right);
    assert Names(items[0], [t][0]);
    assert items[0] in items && Covered(t, items);
    assert NothingHidden(items, t, row) <==> Hidden(if major == Key(t.left) then t.right else t.left, row) == {};
    assert AllCounted(items, [t], row) <==> NothingHidden(items, [t][0], row);
  }

  /** Lists that begin in this direction always merge to the sequential run
      exactly if the branch that gives way hides nothing. */
  lemma OneWayIsSequential(items: seq<ConflictItem>, t: Tree, service: Service, writes: WriteTable, p: Wire)
    requires TwoPaths(t) && AllJoin(items, Key(t.left), Key(t.right))
    requires Hidden(if items[0].major == Key(t.left) then t.right else t.left, service.row) == {}
    requires FaithfulAll([t], service, writes) && IndependentAll([t], service.row)
    ensures SequentialFor(items, [t], service, writes, p)
  {
    hide *;
    IsNode(t);
    FirstJoins(items, Key(t.left), Key(t.right));
    var one := OneWay(t, items[0].major);
    OneWayCounts(t, items[0].major, service.row);
    CountedIsSequential(one, [t], service, writes, p);
    OneWayStart(t, items[0].major);
    SameStart(items, one, t, service, writes, p);
  }

  lemma FirstJoins(items: seq<ConflictItem>, a: int, b: int)
    requires AllJoin(items, a, b)
    ensures items != [] && items[0].major in {a, b}
  {
    assert Joins(items[0], a, b);
  }

  lemma IsNode(t: Tree)
    requires TwoPaths(t)
    ensures t.Node?
  {
  }

  lemma OneWayStart(t: Tree, major: int)
    requires t.Node?
    ensures OneWay(t, major) != [] && OneWay(t, major)[0].major == major
  {
  }

  lemma OneWayLoses(items: seq<ConflictItem>, t: Tree, row: int -> Profile, writes: WriteTable)
    returns (service: Service, p: Wire)
    requires TwoPaths(t) && AllJoin(items, Key(t.left), Key(t.right))
    requires Hidden(if items[0].major == Key(t.left) then t.right else t.left, row) != {}
    requires RowsFit([t], row, writes) && IndependentAll([t], row)
    ensures service.row == row && FaithfulAll([t], service, writes) && MakesPackets(service) && WellFormed(p)
    ensures !SequentialFor(items, [t], service, writes, p)
  {
    hide *;
    IsNode(t);
    FirstJoins(items, Key(t.left), Key(t.right));
    var one := OneWay(t, items[0].major);
    OneWayCounts(t, items[0].major, row);
    MergedServiceExactly(one, [t], row, writes);
    var items';
    items', service, p := NotAlways(one, [t], row, writes);
    OnlyOneOrder(t, items[0].major, items');
    SameStart(items, items', t, service, writes, p);
  }

  lemma NotAlways(items: seq<ConflictItem>, ts: seq<Tree>, row: int -> Profile, writes: WriteTable)
    returns (items': seq<ConflictItem>, service: Service, p: Wire)
    requires !AlwaysSequential(items, ts, row, writes)
    ensures multiset(items') == multiset(items) && service.row == row && FaithfulAll(ts, service, writes)
    ensures MakesPackets(service) && WellFormed(p) && !SequentialFor(items', ts, service, writes, p)
  {
    hide SequentialFor, FaithfulAll, MakesPackets, WellFormed;
    items', service, p :| multiset(items') == multiset(items) && service.row == row && FaithfulAll(ts, service, writes)
                          && MakesPackets(service) && WellFormed(p) && !SequentialFor(items', ts, service, writes, p);
  }

  lemma OnlyOneOrder(t: Tree, major: int, items': seq<ConflictItem>)
    requires TwoPaths(t) && major in {Key(t.left), Key(t.right)} && multiset(items') == multiset(OneWay(t, major))
    ensures AllJoin(items', Key(t.left), Key(t.right)) && items'[0].major == major
  {
    hide Key, Straight, Ids;
    var one := OneWay(t, major);
    SameElements(one, items');
    assert Key(t.left) in Ids(t.left) && Key(t.right) in Ids(t.right);
    assert one[0] in one;
    assert items' != [];
    forall i | 0 <= i < |items'|
      ensures items'[i] == one[0]
    {
      assert items'[i] in one;
    }
  }

  // ----- The orchestrator's lists -----

  /** Two leaf functions c and b with one parent each, at the ends of the two
      paths, and no other recorded pairs than theirs. */
  ghost predicate ForkFits(o: O.Orchestrator, ids: map<string, int>, t: Tree, c: string, b: string, pc: string, pb: string)
    reads o
  {
    TwoPaths(t) && {c, b, pc, pb} <= ids.Keys && {c, b} <= o.actionTable.Keys && {c, b} <= o.parents.Keys && c != b
    && o.parents[c] == {pc} && o.parents[b] == {pb} && Key(t.left) == ids[c] && Key(t.right) == ids[b]
    && forall x, y :: O.HasPair(o.pairToConflicts, x, y) <==> O.LevelPair({c, b}, o.actionTable, x, y)
  }

  /** A list has items of the two leaves only, in the directions that are admitted. */
  lemma ForkItems(o: O.Orchestrator, ids: map<string, int>, t: Tree, c: string, b: string, pc: string, pb: string,
                  items: seq<ConflictItem>)
    requires ForkFits(o, ids, t, c, b, pc, pb) && EitherWay(o.actionTable, c, b)
    requires O.ConflictsListed(items, o.pairToConflicts, o.parents, ids)
    ensures AllJoin(items, ids[c], ids[b]) && AllJoin(items, Key(t.left), Key(t.right))
    ensures items[0].major == ids[c] ==> Parallelizable(o.actionTable[c], o.actionTable[b])
    ensures items[0].major == ids[b] ==> Parallelizable(o.actionTable[b], o.actionTable[c])
  {
    hide *;
    var pairs, parentOf := PairsOfList(o, ids, items);
    KeysOfFork(o, ids, t, c, b, pc, pb);
    var x, y := AdmittedWay(o, ids, t, c, b, pc, pb);
    var some := IndexOfPair(o, ids, items, pairs, parentOf, x, y);
    forall i | 0 <= i < |items|
      ensures Joins(items[i], ids[c], ids[b])
      ensures items[i].major == ids[c] ==> Parallelizable(o.actionTable[c], o.actionTable[b])
      ensures items[i].major == ids[b] ==> Parallelizable(o.actionTable[b], o.actionTable[c])
    {
      var u, w := PairAtIndex(o, ids, items, pairs, parentOf, i);
      ItemJoins(o, ids, t, c, b, pc, pb, items[i], parentOf, u, w);
    }
    JoinsAll(items, ids[c], ids[b]);
  }

  lemma JoinsAll(items: seq<ConflictItem>, a: int, b: int)
    requires items != [] && a != b && forall i :: 0 <= i < |items| ==> Joins(items[i], a, b)
    ensures AllJoin(items, a, b)
  {
  }

  lemma KeysOfFork(o: O.Orchestrator, ids: map<string, int>, t: Tree, c: string, b: string, pc: string, pb: string)
    requires ForkFits(o, ids, t, c, b, pc, pb)
    ensures t.Node? && {c, b, pc, pb} <= ids.Keys && Key(t.left) == ids[c] && Key(t.right) == ids[b] && ids[c] != ids[b]
    ensures TwoPaths(t) && {c, b} <= o.actionTable.Keys
  {
    TwoLeaves(t, Service((_, p) => p, _ => Profile({}, {}, false)), SamplePacket());
  }

  lemma AdmittedWay(o: O.Orchestrator, ids: map<string, int>, t: Tree, c: string, b: string, pc: string, pb: string)
    returns (x: string, y: string)
    requires ForkFits(o, ids, t, c, b, pc, pb) && EitherWay(o.actionTable, c, b)
    ensures O.HasPair(o.pairToConflicts, x, y)
  {
    hide Parallelizable, TwoPaths;
    x, y := if Parallelizable(o.actionTable[c], o.actionTable[b]) then c else b,
            if Parallelizable(o.actionTable[c], o.actionTable[b]) then b else c;
    assert O.LevelPair({c, b}, o.actionTable, x, y);
  }

  lemma ItemJoins(o: O.Orchestrator, ids: map<string, int>, t: Tree, c: string, b: string, pc: string, pb: string,
                  ci: ConflictItem, parentOf: map<string, int>, x: string, y: string)
    requires ForkFits(o, ids, t, c, b, pc, pb) && O.HasPair(o.pairToConflicts, x, y) && O.ItemFor(ci, (x, y), ids, parentOf)
    requires {c, b} <= ids.Keys && ids[c] != ids[b]
    ensures Joins(ci, ids[c], ids[b]) && {c, b} <= o.actionTable.Keys
    ensures ci.major == ids[c] ==> Parallelizable(o.actionTable[c], o.actionTable[b])
    ensures ci.major == ids[b] ==> Parallelizable(o.actionTable[b], o.actionTable[c])
  {
    hide Parallelizable, TwoPaths;
    assert O.LevelPair({c, b}, o.actionTable, x, y);
  }

  /** The parents of the two leaves, by id. */
  function ParentsOf(ids: map<string, int>, c: string, b: string, pc: string, pb: string): map<string, int>
    requires {pc, pb} <= ids.Keys
  {
    map[c := ids[pc], b := ids[pb]]
  }

  function ItemsOfPairs(ids: map<string, int>, parentOf: map<string, int>, pairs: seq<Edge>): (items: seq<ConflictItem>)
    requires forall p :: p in pairs ==> p.0 in ids && p.1 in ids && p.0 in parentOf
    ensures O.ItemsFor(items, pairs, ids, parentOf)
  {
    seq(|pairs|, i requires 0 <= i < |pairs| => ConflictItem(ids[pairs[i].0], ids[pairs[i].1], parentOf[pairs[i].0]))
  }

  /** A list that begins with an admitted direction: x gives precedence to y. */
  lemma ForkList(o: O.Orchestrator, ids: map<string, int>, t: Tree, c: string, b: string, pc: string, pb: string,
                 x: string, y: string)
    returns (items: seq<ConflictItem>)
    requires ForkFits(o, ids, t, c, b, pc, pb) && O.LevelPair({c, b}, o.actionTable, x, y)
    ensures O.ConflictsListed(items, o.pairToConflicts, o.parents, ids)
    ensures items != [] && x in ids && items[0].major == ids[x]
  {
    hide Parallelizable, TwoPaths;
    var pairs := if Parallelizable(o.actionTable[y], o.actionTable[x]) then [(x, y), (y, x)] else [(x, y)];
    var parentOf := ParentsOf(ids, c, b, pc, pb);
    forall u, w
      ensures (u, w) in pairs <==> O.HasPair(o.pairToConflicts, u, w)
    {
      assert (u, w) in pairs <==> O.LevelPair({c, b}, o.actionTable, u, w);
    }
    items := ItemsOfPairs(ids, parentOf, pairs);
    assert pairs[0] == (x, y) && O.ItemFor(items[0], pairs[0], ids, parentOf);
    ForkListed(o, ids, t, c, b, pc, pb, items, pairs);
  }

  lemma ForkListed(o: O.Orchestrator, ids: map<string, int>, t: Tree, c: string, b: string, pc: string, pb: string,
                   items: seq<ConflictItem>, pairs: seq<Edge>)
    requires ForkFits(o, ids, t, c, b, pc, pb) && {pc, pb} <= ids.Keys && |pairs| <= 2 && O.NoRepeats(pairs)
    requires forall u, w :: (u, w) in pairs <==> O.HasPair(o.pairToConflicts, u, w)
    requires O.ItemsFor(items, pairs, ids, ParentsOf(ids, c, b, pc, pb))
    ensures O.ConflictsListed(items, o.pairToConflicts, o.parents, ids)
  {
    hide TwoPaths, O.ItemsFor, O.HasPair, O.LevelPair;
    var parentOf := ParentsOf(ids, c, b, pc, pb);
    assert O.Grouped(pairs);
    assert forall a :: a in parentOf ==> a in o.parents && O.ParentId(o.parents[a], ids, parentOf[a]);
    assert O.ListsConflicts(items, pairs, o.pairToConflicts, o.parents, ids, parentOf);
  }

  /** The exact condition: for every list the orchestrator may produce, all
      functions within their rows and every real packet, the merge is the
      sequential run, if and only if no path gives way, in an admitted
      direction, that hides a write of one of its upper functions. */
  lemma ForkExactly(o: O.Orchestrator, ids: map<string, int>, t: Tree, c: string, b: string, pc: string, pb: string,
                    row: int -> Profile, writes: WriteTable)
    requires ForkFits(o, ids, t, c, b, pc, pb) && EitherWay(o.actionTable, c, b)
    requires RowsFit([t], row, writes) && IndependentAll([t], row)
    ensures ForestAlwaysSequential(o, ids, [t], row, writes) <==>
            (Parallelizable(o.actionTable[c], o.actionTable[b]) ==> Hidden(t.right, row) == {})
            && (Parallelizable(o.actionTable[b], o.actionTable[c]) ==> Hidden(t.left, row) == {})
  {
    hide ForkFits, EitherWay, RowsFit, IndependentAll, O.ConflictsListed, SequentialFor, Hidden, FaithfulAll, MakesPackets, WellFormed,
         Parallelizable, AllJoin, TwoPaths, Key;
    KeysOfFork(o, ids, t, c, b, pc, pb);
    var right := Parallelizable(o.actionTable[c], o.actionTable[b]) && Hidden(t.right, row) != {};
    var left := Parallelizable(o.actionTable[b], o.actionTable[c]) && Hidden(t.left, row) != {};
    if right || left {
      var x, y := if right then c else b, if right then b else c;
      var items := ForkList(o, ids, t, c, b, pc, pb, x, y);
      ForkItems(o, ids, t, c, b, pc, pb, items);
      var service, p := OneWayLoses(items, t, row, writes);
    } else {
      forall items: seq<ConflictItem>, service: Service, p: Wire
        | O.ConflictsListed(items, o.pairToConflicts, o.parents, ids) && service.row == row && FaithfulAll([t], service, writes)
        ensures SequentialFor(items, [t], service, writes, p)
      {
        ForkItems(o, ids, t, c, b, pc, pb, items);
        FirstJoins(items, ids[c], ids[b]);
        OneWayIsSequential(items, t, service, writes, p);
      }
    }
  }

  // ----- Such a service from constraints -----

  /** r before a before c, and r before b; first before r. */
  ghost predicate ForkMade(o: O.Orchestrator, first: string, r: string, a: string, c: string, b: string)
    reads o
  {
    o.Valid() && {first, r, a, c, b} <= o.neighbors.Keys && {c, b} <= o.actionTable.Keys
    && o.Edges() == {(r, a), (a, c), (r, b), (first, r)}
    && forall x, y :: O.HasPair(o.pairToConflicts, x, y) <==> O.LevelPair({c, b}, o.actionTable, x, y)
  }

  /** The names are different. */
  ghost predicate FiveNames(first: string, r: string, a: string, c: string, b: string) {
    F.NoneTwice([first, r, a, c, b])
  }

  /** The functions below first: at r the path of a and c parts from that of b. */
  function ForkTree(ids: map<string, int>, r: string, a: string, c: string, b: string): Tree
    requires {r, a, c, b} <= ids.Keys
  {
    Node(ids[r], Chain(ids[a], Leaf(ids[c])), Leaf(ids[b]))
  }

  function ForkOrder(r: string, a: string, c: string, b: string): seq<Edge> {
    [(r, a), (a, c), (r, b)]
  }

  lemma ForkOrderEdges(r: string, a: string, c: string, b: string)
    ensures OrderEdges(ForkOrder(r, a, c, b)) == {(r, a), (a, c), (r, b)}
  {
    var order := ForkOrder(r, a, c, b);
    assert order[0] == (r, a) && order[1] == (a, c) && order[2] == (r, b);
  }

  /** One tree, with root r and leaves c and b. */
  lemma ForkOrderTree(first: string, r: string, a: string, c: string, b: string)
    requires FiveNames(first, r, a, c, b)
    ensures var order := {(r, a), (a, c), (r, b)};
      Endpoints(order) == {r, a, c, b} && RootNodes(order) == {r} && LeavesFrom(order, r) == {c, b}
  {
    hide LeavesFrom, Reach;
    FourDiffer(first, r, a, c, b);
    var order: set<Edge> := {(r, a), (a, c), (r, b)};
    assert Endpoints(order) == {r, a, c, b} by {
      EdgeEnds(order, r, a);
      EdgeEnds(order, a, c);
      EdgeEnds(order, r, b);
    }
    assert RootNodes(order) == {r} by {
      assert (r, a) in order && (a, c) in order && (r, b) in order;
      assert (r, a).1 == a && (a, c).1 == c && (r, b).1 == b;
    }
    assert NoOut(order, c) && NoOut(order, b);
    assert (r, a).0 == r && (a, c).0 == a && !NoOut(order, r) && !NoOut(order, a);
    forall l
      ensures l in LeavesFrom(order, r) <==> l in {c, b}
    {
      LeavesStep(order, r, l);
      LeavesStep(order, a, l);
      LeavesStep(order, b, l);
      LeavesStep(order, c, l);
      assert forall n :: (r, n) in order <==> n == a || n == b;
      assert forall n :: (a, n) in order <==> n == c;
    }
  }

  lemma FourDiffer(first: string, r: string, a: string, c: string, b: string)
    requires FiveNames(first, r, a, c, b)
    ensures r != a && r != c && r != b && a != c && a != b && c != b
    ensures first != r && first != a && first != c && first != b
  {
    var s := [first, r, a, c, b];
    assert s[0] == first && s[1] == r && s[2] == a && s[3] == c && s[4] == b;
  }

  lemma ForkRank(first: string, r: string, a: string, c: string, b: string, rank: Rank)
    requires FiveNames(first, r, a, c, b) && rank == (n => if n == r then 2 else if n == a then 1 else 0)
    ensures RankedFromRoots({(r, a), (a, c), (r, b)}, rank)
  {
    FourDiffer(first, r, a, c, b);
  }

  lemma ForkServiceEdges(first: string, r: string, a: string, c: string, b: string)
    requires FiveNames(first, r, a, c, b)
    ensures ServiceEdges({(r, a), (a, c), (r, b)}, {}, Some(first), None) == {(r, a), (a, c), (r, b), (first, r)}
  {
    hide RootNodes;
    ForkOrderTree(first, r, a, c, b);
    assert EdgesFrom(first, {r}) == {(first, r)} && EdgesFrom(first, {}) == {};
  }

  lemma ForkLevel(first: string, r: string, a: string, c: string, b: string, rows: map<string, Row>, x: string, y: string)
    requires FiveNames(first, r, a, c, b) && {r, a, c, b} <= rows.Keys
    ensures Endpoints({(r, a), (a, c), (r, b)}) == {r, a, c, b}
    ensures O.OnOneLevel({(r, a), (a, c), (r, b)}, {}, rows, x, y) <==> O.LevelPair({c, b}, rows, x, y)
  {
    hide Parallelizable, LeavesFrom, RootNodes, Endpoints;
    ForkOrderTree(first, r, a, c, b);
    assert O.SharesTree({(r, a), (a, c), (r, b)}, rows, r, x, y) <==> O.LevelPair({c, b}, rows, x, y);
  }

  /** What the constructor asks of the constraints, and makes of them. */
  lemma ForkConstraints(rows: map<string, Row>, functions: seq<string>, r: string, a: string, c: string, b: string)
    requires {r, a, c, b} <= rows.Keys && r in functions && a in functions && c in functions && b in functions
    requires !Parallelizable(rows[r], rows[a]) && !Parallelizable(rows[a], rows[c]) && !Parallelizable(rows[r], rows[b])
    ensures forall d :: d in ForkOrder(r, a, c, b) ==>
              d.0 in rows && d.1 in rows && O.Named(d, functions) && !Parallelizable(rows[d.0], rows[d.1])
    ensures O.Filtered(ForkOrder(r, a, c, b), rows, false) == ForkOrder(r, a, c, b)
    ensures O.Filtered(ForkOrder(r, a, c, b), rows, true) == [] && O.Filtered([], rows, true) == []
    ensures Constrained([]) == {}
  {
    hide Parallelizable;
    AllFiltered(ForkOrder(r, a, c, b), rows, false);
  }

  method MakeFork(actionTable: map<string, Row>, functions: seq<string>, first: string, r: string, a: string, c: string,
                  b: string, ips: seq<string>)
    returns (o: O.Orchestrator)
    requires FiveNames(first, r, a, c, b) && {r, a, c, b} <= actionTable.Keys && ips != []
    requires first in functions && r in functions && a in functions && c in functions && b in functions
    requires !Parallelizable(actionTable[r], actionTable[a]) && !Parallelizable(actionTable[a], actionTable[c])
    requires !Parallelizable(actionTable[r], actionTable[b])
    ensures fresh(o) && o.actionTable == actionTable && o.FieldsKept() && forall f :: f in o.neighbors <==> f in functions
    ensures ForkMade(o, first, r, a, c, b)
  {
    hide *;
    var order := ForkOrder(r, a, c, b);
    ghost var rank: Rank := n => if n == r then 2 else if n == a then 1 else 0;
    ForkConstraints(actionTable, functions, r, a, c, b);
    ForkOrderEdges(r, a, c, b);
    ForkRank(first, r, a, c, b, rank);
    F.OnlyFirst(first);
    o := new O.Orchestrator(actionTable, functions, [(first, "first")], order, [], ips, rank);
    ForkServiceEdges(first, r, a, c, b);
    assert o.parsedOrder == order && o.parsedPriorities == [];
    ForkIsMade(o, functions, first, r, a, c, b);
  }

  lemma ForkIsMade(o: O.Orchestrator, functions: seq<string>, first: string, r: string, a: string, c: string, b: string)
    requires FiveNames(first, r, a, c, b) && {r, a, c, b} <= o.actionTable.Keys && o.Valid()
    requires forall f :: f in o.neighbors <==> f in functions
    requires first in functions && r in functions && a in functions && c in functions && b in functions
    requires forall d :: d in ForkOrder(r, a, c, b) ==>
               d.0 in o.actionTable && d.1 in o.actionTable && !Parallelizable(o.actionTable[d.0], o.actionTable[d.1])
    requires Endpoints({(r, a), (a, c), (r, b)}) <= o.actionTable.Keys
    requires o.Edges() == {(r, a), (a, c), (r, b), (first, r)}
    requires forall x, y :: O.HasPair(o.pairToConflicts, x, y) <==>
               (((x, y) in ForkOrder(r, a, c, b) || (x, y) in []) && o.Recorded(x, y))
               || O.OnOneLevel({(r, a), (a, c), (r, b)}, {}, o.actionTable, x, y)
    ensures ForkMade(o, first, r, a, c, b)
  {
    hide Parallelizable, O.LevelPair, O.OnOneLevel, ConflictFields, O.HasPair, Endpoints, ForkOrder;
    forall x, y
      ensures O.HasPair(o.pairToConflicts, x, y) <==> O.LevelPair({c, b}, o.actionTable, x, y)
    {
      ForkLevel(first, r, a, c, b, o.actionTable, x, y);
      assert (x, y).0 == x && (x, y).1 == y;
    }
  }

  /** All that is recorded is about nodes of the graph. */
  lemma ForkPairsAreNodes(o: O.Orchestrator, first: string, r: string, a: string, c: string, b: string)
    requires ForkMade(o, first, r, a, c, b) && o.FieldsKept()
    ensures o.Valid() && forall x :: x in o.pairToConflicts ==> x in o.neighbors && o.pairToConflicts[x].Keys <= o.neighbors.Keys
  {
    hide Parallelizable;
    forall x | x in o.pairToConflicts
      ensures x in o.neighbors && o.pairToConflicts[x].Keys <= o.neighbors.Keys
    {
      assert o.pairToConflicts[x].Keys != {};
      var some := Pick(o.pairToConflicts[x].Keys);
      assert O.HasPair(o.pairToConflicts, x, some);
      forall y | y in o.pairToConflicts[x]
        ensures y in o.neighbors
      {
        assert O.HasPair(o.pairToConflicts, x, y);
      }
    }
  }

  /** Three order constraints that all rule out parallel runs make such a
      graph, and a conflict list for it. */
  method OrchestrateFork(actionTable: map<string, Row>, functions: seq<string>, first: string, r: string, a: string,
                         c: string, b: string, ips: seq<string>, ids: map<string, int>)
    returns (o: O.Orchestrator, items: seq<ConflictItem>)
    requires FiveNames(first, r, a, c, b) && {r, a, c, b} <= actionTable.Keys && ips != []
    requires first in functions && r in functions && a in functions && c in functions && b in functions
    requires !Parallelizable(actionTable[r], actionTable[a]) && !Parallelizable(actionTable[a], actionTable[c])
    requires !Parallelizable(actionTable[r], actionTable[b])
    requires forall f :: f in functions ==> f in ids
    ensures fresh(o) && o.actionTable == actionTable && ForkMade(o, first, r, a, c, b)
    ensures O.ConflictsListed(items, o.pairToConflicts, o.parents, ids)
  {
    hide *;
    o := MakeFork(actionTable, functions, first, r, a, c, b, ips);
    ForkPairsAreNodes(o, first, r, a, c, b);
    items := o.CreateConflictsList(ids);
  }

  lemma ForkMadeFits(o: O.Orchestrator, ids: map<string, int>, first: string, r: string, a: string, c: string, b: string)
    requires ForkMade(o, first, r, a, c, b) && FiveNames(first, r, a, c, b)
    requires {r, a, c, b} <= ids.Keys && DifferentIds(ids)
    ensures ForkFits(o, ids, ForkTree(ids, r, a, c, b), c, b, a, r)
  {
    hide O.LevelPair, O.HasPair, TwoPaths;
    FourDiffer(first, r, a, c, b);
    ForkTreePaths(ids, first, r, a, c, b);
    ForkParents(o, first, r, a, c, b);
  }

  lemma ForkTreePaths(ids: map<string, int>, first: string, r: string, a: string, c: string, b: string)
    requires FiveNames(first, r, a, c, b) && {r, a, c, b} <= ids.Keys && DifferentIds(ids)
    ensures TwoPaths(ForkTree(ids, r, a, c, b))
    ensures var t := ForkTree(ids, r, a, c, b); Key(t.left) == ids[c] && Key(t.right) == ids[b]
  {
    FourDiffer(first, r, a, c, b);
    assert ids[r] != ids[a] && ids[r] != ids[c] && ids[r] != ids[b];
    assert ids[a] != ids[c] && ids[a] != ids[b] && ids[c] != ids[b];
    var t := ForkTree(ids, r, a, c, b);
    var leaf := Leaf(ids[c]);
    assert t.left == Chain(ids[a], leaf) && Ids(leaf) == {ids[c]} && Distinct(leaf) && Straight(leaf) && Key(leaf) == ids[c];
    assert Ids(t.left) == {ids[a], ids[c]} && Ids(t.right) == {ids[b]};
    assert Distinct(t.left) && Straight(t.left) && Distinct(t.right);
  }

  lemma ForkParents(o: O.Orchestrator, first: string, r: string, a: string, c: string, b: string)
    requires ForkMade(o, first, r, a, c, b) && FiveNames(first, r, a, c, b)
    ensures {c, b} <= o.parents.Keys && o.parents[c] == {a} && o.parents[b] == {r}
  {
    FourDiffer(first, r, a, c, b);
    forall n
      ensures n in o.parents[c] <==> n == a
      ensures n in o.parents[b] <==> n == r
    {
      assert n in o.parents[c] <==> (n, c) in o.Edges();
      assert n in o.parents[b] <==> (n, b) in o.Edges();
    }
  }

  /** For this service: the merge always is the sequential run exactly if a
      writes nothing that c does not write, or the check does not admit b
      beside c, so that c never gives way. */
  lemma ForkedServiceExactly(o: O.Orchestrator, ids: map<string, int>, first: string, r: string, a: string, c: string, b: string,
                             row: int -> Profile, writes: WriteTable)
    requires ForkMade(o, first, r, a, c, b) && FiveNames(first, r, a, c, b)
    requires {r, a, c, b} <= ids.Keys && DifferentIds(ids) && EitherWay(o.actionTable, c, b)
    requires RowsFit([ForkTree(ids, r, a, c, b)], row, writes) && IndependentAll([ForkTree(ids, r, a, c, b)], row)
    ensures ForestAlwaysSequential(o, ids, [ForkTree(ids, r, a, c, b)], row, writes) <==>
            row(ids[a]).writeSet <= row(ids[c]).writeSet || !Parallelizable(o.actionTable[b], o.actionTable[c])
  {
    hide *;
    var t := ForkTree(ids, r, a, c, b);
    ForkMadeFits(o, ids, first, r, a, c, b);
    ForkHides(ids, r, a, c, b, row);
    ForkExactly(o, ids, t, c, b, a, r, row, writes);
  }

  lemma ForkHides(ids: map<string, int>, r: string, a: string, c: string, b: string, row: int -> Profile)
    requires {r, a, c, b} <= ids.Keys
    ensures var t := ForkTree(ids, r, a, c, b);
      t.Node? && Hidden(t.right, row) == {} && (Hidden(t.left, row) == {} <==> row(ids[a]).writeSet <= row(ids[c]).writeSet)
  {
    var t := ForkTree(ids, r, a, c, b);
    assert t.left.below == Leaf(ids[c]);
    assert TreeProfile(t.left.below, row) == row(ids[c]) && Counted(t.left.below, row) == row(ids[c]).writeSet;
    assert Hidden(t.left, row) == row(ids[a]).writeSet - row(ids[c]).writeSet;
    assert forall f :: f in row(ids[a]).writeSet && f !in row(ids[c]).writeSet ==> f in Hidden(t.left, row);
  }
}

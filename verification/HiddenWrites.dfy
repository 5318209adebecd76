/** Exactly when the merge of a service is its sequential run: a write that a
    merged packet does not count is lost where the packet gives way. */
module HiddenWrites {
  import opened Packets
  import opened MergeSpec
  import opened MergeForest
  import opened NetworkFunctions
  import opened ServiceForest
  import Conservation

  // The loss is real: for some order of the conflict list, some functions
  // within their rows and some packet.

  // ----- An order of the list that follows an orientation -----

  function Filter(items: seq<ConflictItem>, keep: ConflictItem -> bool): (r: seq<ConflictItem>)
    ensures forall ci :: ci in r <==> ci in items && keep(ci)
  {
    if items == [] then [] else (if keep(items[0]) then [items[0]] else []) + Filter(items[1..], keep)
  }

  lemma {:induction false} FilterCount(items: seq<ConflictItem>, keep: ConflictItem -> bool, ci: ConflictItem)
    ensures multiset(Filter(items, keep))[ci] == if keep(ci) then multiset(items)[ci] else 0
  {
    if items == [] {
    } else {
      FilterCount(items[1..], keep, ci);
      assert items == [items[0]] + items[1..];
    }
  }

  /** The item of a node in the orientation's direction. */
  function ItemAt(t: Tree, orient: Orientation): ConflictItem
    requires t.Node?
  {
    if orient(t.id) then ConflictItem(Key(t.left), Key(t.right), t.id) else ConflictItem(Key(t.right), Key(t.left), t.id)
  }

  function Only(ci: ConflictItem): ConflictItem -> bool {
    x => x == ci
  }

  /** The list's items in the orientation's direction, from the leaves up. */
  function Upwards(t: Tree, items: seq<ConflictItem>, orient: Orientation): seq<ConflictItem> {
    match t
    case Leaf(_) => []
    case Chain(_, below) => Upwards(below, items, orient)
    case Node(_, left, right) =>
      Upwards(left, items, orient) + Upwards(right, items, orient) + Filter(items, Only(ItemAt(t, orient)))
  }

  function UpwardsAll(ts: seq<Tree>, items: seq<ConflictItem>, orient: Orientation): seq<ConflictItem> {
    if ts == [] then [] else Upwards(ts[0], items, orient) + UpwardsAll(ts[1..], items, orient)
  }

  /** The item is some node's, in the orientation's direction. */
  predicate Follows(ci: ConflictItem, t: Tree, orient: Orientation) {
    match t
    case Leaf(_) => false
    case Chain(_, below) => Follows(ci, below, orient)
    case Node(_, left, right) => ci == ItemAt(t, orient) || Follows(ci, left, orient) || Follows(ci, right, orient)
  }

  predicate FollowsOne(ci: ConflictItem, ts: seq<Tree>, orient: Orientation) {
    ts != [] && (Follows(ci, ts[0], orient) || FollowsOne(ci, ts[1..], orient))
  }

  lemma {:induction false} FollowsWithin(ci: ConflictItem, t: Tree, orient: Orientation)
    requires Follows(ci, t, orient)
    ensures ci.parent in Ids(t)
  {
    match t
    case Chain(_, below) => FollowsWithin(ci, below, orient);
    case Node(_, left, right) =>
      if Follows(ci, left, orient) {
        FollowsWithin(ci, left, orient);
      } else if Follows(ci, right, orient) {
        FollowsWithin(ci, right, orient);
      }
  }

  lemma {:induction false} UpwardsCount(t: Tree, items: seq<ConflictItem>, orient: Orientation, ci: ConflictItem)
    requires Distinct(t)
    ensures multiset(Upwards(t, items, orient))[ci] == if Follows(ci, t, orient) then multiset(items)[ci] else 0
  {
    match t
    case Leaf(_) =>
    case Chain(_, below) => UpwardsCount(below, items, orient, ci);
    case Node(id, left, right) =>
      UpwardsCount(left, items, orient, ci);
      UpwardsCount(right, items, orient, ci);
      FilterCount(items, Only(ItemAt(t, orient)), ci);
      if Follows(ci, left, orient) {
        FollowsWithin(ci, left, orient);
      }
      if Follows(ci, right, orient) {
        FollowsWithin(ci, right, orient);
      }
  }

  lemma RestOfForest(ts: seq<Tree>)
    requires ts != [] && DistinctForest(ts)
    ensures DistinctForest(ts[1..])
    ensures forall k, j :: 0 <= j < |ts[1..]| && k in Ids(ts[1..][j]) ==> k !in Ids(ts[0])
  {
    forall k, j | 0 <= j < |ts[1..]| && k in Ids(ts[1..][j])
      ensures k !in Ids(ts[0])
    {
      assert ts[1..][j] == ts[j + 1] && Ids(ts[0]) !! Ids(ts[j + 1]);
    }
    assert forall j :: 0 <= j < |ts[1..]| ==> ts[1..][j] == ts[j + 1];
  }

  lemma {:induction false} FollowsOneAt(ci: ConflictItem, ts: seq<Tree>, orient: Orientation) returns (i: nat)
    requires FollowsOne(ci, ts, orient)
    ensures i < |ts| && Follows(ci, ts[i], orient)
  {
    if Follows(ci, ts[0], orient) {
      i := 0;
    } else {
      var j := FollowsOneAt(ci, ts[1..], orient);
      i := j + 1;
    }
  }

  lemma {:induction false} UpwardsAllCount(ts: seq<Tree>, items: seq<ConflictItem>, orient: Orientation, ci: ConflictItem)
    requires DistinctForest(ts)
    ensures multiset(UpwardsAll(ts, items, orient))[ci] == if FollowsOne(ci, ts, orient) then multiset(items)[ci] else 0
  {
    if ts == [] {
    } else {
      RestOfForest(ts);
      UpwardsCount(ts[0], items, orient, ci);
      UpwardsAllCount(ts[1..], items, orient, ci);
      if Follows(ci, ts[0], orient) && FollowsOne(ci, ts[1..], orient) {
        FollowsWithin(ci, ts[0], orient);
        var i := FollowsOneAt(ci, ts[1..], orient);
        FollowsWithin(ci, ts[1..][i], orient);
        assert false;
      }
    }
  }

  /** The whole list: first what follows the orientation, then the rest. */
  function Reordered(ts: seq<Tree>, items: seq<ConflictItem>, orient: Orientation): seq<ConflictItem> {
    UpwardsAll(ts, items, orient) + Filter(items, ci => !FollowsOne(ci, ts, orient))
  }

  lemma ReorderedIsPermutation(ts: seq<Tree>, items: seq<ConflictItem>, orient: Orientation)
    requires DistinctForest(ts)
    ensures multiset(Reordered(ts, items, orient)) == multiset(items)
  {
    var up, rest := UpwardsAll(ts, items, orient), Filter(items, ci => !FollowsOne(ci, ts, orient));
    assert multiset(up + rest) == multiset(up) + multiset(rest);
    forall ci
      ensures multiset(up + rest)[ci] == multiset(items)[ci]
    {
      UpwardsAllCount(ts, items, orient, ci);
      FilterCount(items, x => !FollowsOne(x, ts, orient), ci);
    }
  }

  // ----- One pass over it merges every tree -----

  lemma {:induction false} PassAppend<T>(a: seq<ConflictItem>, b: seq<ConflictItem>, writes: WriteTable, m: LiveMap<T>)
    ensures Pass(a + b, writes, m) == Pass(b, writes, Pass(a, writes, m))
  {
    if a == [] {
      assert a + b == b;
    } else {
      assert (a + b)[0] == a[0] && (a + b)[1..] == a[1..] + b;
      PassAppend(a[1..], b, writes, Step(a[0], writes, m));
    }
  }

  /** The tree's leaves are present, and no other node of it. */
  ghost predicate Fresh<T>(t: Tree, leaves: LiveMap<T>, m: LiveMap<T>) {
    (forall k :: k in LeafIds(t) ==> k in leaves && k in m && m[k] == leaves[k])
    && forall k :: k in Ids(t) && k !in LeafIds(t) ==> k !in m
  }

  /** The map with a tree's leaves replaced by its merge. */
  function Folded<T>(t: Tree, orient: Orientation, writes: WriteTable, leaves: LiveMap<T>, m: LiveMap<T>): LiveMap<T>
    requires LeafIds(t) <= leaves.Keys
  {
    (m - LeafIds(t))[Key(t) := TreeMerge(t, orient, writes, leaves)]
  }

  lemma FreshBeside<T>(t: Tree, beside: Tree, orient: Orientation, writes: WriteTable, leaves: LiveMap<T>, m: LiveMap<T>)
    requires Fresh(t, leaves, m) && Fresh(beside, leaves, m) && Ids(t) !! Ids(beside) && LeafIds(t) <= leaves.Keys
    ensures Fresh(beside, leaves, Folded(t, orient, writes, leaves, m))
  {
    assert Key(t) in Ids(t) && LeafIds(t) <= Ids(t) && LeafIds(beside) <= Ids(beside);
  }

  lemma FreshBranches<T>(t: Tree, leaves: LiveMap<T>, m: LiveMap<T>)
    requires t.Node? && Distinct(t) && Fresh(t, leaves, m)
    ensures Fresh(t.left, leaves, m) && Fresh(t.right, leaves, m) && t.id !in m
  {
    assert LeafIds(t.left) <= Ids(t.left) && LeafIds(t.right) <= Ids(t.right);
  }

  /** At one node, both branches merged: its item fires, and the item's repetitions do not. */
  lemma FireHere<T>(t: Tree, items: seq<ConflictItem>, orient: Orientation, writes: WriteTable, leaves: LiveMap<T>,
                    m: LiveMap<T>, both: LiveMap<T>)
    requires t.Node? && Distinct(t) && Fresh(t, leaves, m) && ItemAt(t, orient) in items
    requires LeafIds(t) <= leaves.Keys
    requires both == Folded(t.right, orient, writes, leaves, Folded(t.left, orient, writes, leaves, m))
    ensures Pass(Filter(items, Only(ItemAt(t, orient))), writes, both) == Folded(t, orient, writes, leaves, m)
  {
    var ci := ItemAt(t, orient);
    var here := Filter(items, Only(ci));
    assert ci in here;
    FreshBranches(t, leaves, m);
    BothKeys(t, orient, writes, leaves, m, both);
    assert here != [] && here[0] in here;
    var r := Collapse(ci, writes, both);
    CollapsedHere(t, orient, writes, leaves, m, both);
    forall i | 0 <= i < |here[1..]|
      ensures !Enabled(here[1..][i], r)
    {
      assert here[1..][i] == here[i + 1] && here[i + 1] in here;
    }
    Conservation.NothingEnabled(here[1..], writes, r);
  }

  lemma BothKeys<T>(t: Tree, orient: Orientation, writes: WriteTable, leaves: LiveMap<T>, m: LiveMap<T>, both: LiveMap<T>)
    requires t.Node? && Distinct(t) && Fresh(t, leaves, m) && LeafIds(t) <= leaves.Keys
    requires both == Folded(t.right, orient, writes, leaves, Folded(t.left, orient, writes, leaves, m))
    ensures Key(t.left) in both && both[Key(t.left)] == TreeMerge(t.left, orient, writes, leaves)
    ensures Key(t.right) in both && both[Key(t.right)] == TreeMerge(t.right, orient, writes, leaves)
    ensures Enabled(ItemAt(t, orient), both) && t.id !in both && Key(t.left) != Key(t.right)
    ensures forall k :: k in both && k != Key(t.left) && k != Key(t.right) <==> k in m && k !in LeafIds(t) && k != Key(t.left) && k != Key(t.right)
    ensures forall k :: k in both && k != Key(t.left) && k != Key(t.right) ==> both[k] == m[k]
  {
    assert Key(t.left) in Ids(t.left) && Key(t.right) in Ids(t.right);
    assert LeafIds(t.left) <= Ids(t.left) && LeafIds(t.right) <= Ids(t.right);
    FreshBranches(t, leaves, m);
  }

  /** Once the node has taken their place, nothing is left of its branches. */
  lemma BranchKeysGone<T>(t: Tree, leaves: LiveMap<T>, m: LiveMap<T>)
    requires t.Node? && Distinct(t) && Fresh(t, leaves, m)
    ensures forall k :: k == Key(t.left) || k == Key(t.right) ==> k != t.id && (k in m ==> k in LeafIds(t))
  {
    assert Key(t.left) in Ids(t.left) && Key(t.right) in Ids(t.right);
  }

  lemma MergedHere<T>(t: Tree, orient: Orientation, writes: WriteTable, leaves: LiveMap<T>, both: LiveMap<T>)
    requires t.Node? && LeafIds(t) <= leaves.Keys && Enabled(ItemAt(t, orient), both)
    requires both[Key(t.left)] == TreeMerge(t.left, orient, writes, leaves)
    requires both[Key(t.right)] == TreeMerge(t.right, orient, writes, leaves)
    ensures Merged(ItemAt(t, orient), writes, both) == TreeMerge(t, orient, writes, leaves)
  {
  }

  lemma CollapsedHere<T>(t: Tree, orient: Orientation, writes: WriteTable, leaves: LiveMap<T>, m: LiveMap<T>, both: LiveMap<T>)
    requires t.Node? && Distinct(t) && Fresh(t, leaves, m) && LeafIds(t) <= leaves.Keys
    requires both == Folded(t.right, orient, writes, leaves, Folded(t.left, orient, writes, leaves, m))
    requires Enabled(ItemAt(t, orient), both)
    ensures Collapse(ItemAt(t, orient), writes, both) == Folded(t, orient, writes, leaves, m)
    ensures Key(t.left) !in Folded(t, orient, writes, leaves, m)
  {
    BothKeys(t, orient, writes, leaves, m, both);
    BranchKeysGone(t, leaves, m);
    MergedHere(t, orient, writes, leaves, both);
    SameAfterCollapse(ItemAt(t, orient), writes, both, m, LeafIds(t), TreeMerge(t, orient, writes, leaves));
  }

  lemma SameAfterCollapse<T>(ci: ConflictItem, writes: WriteTable, both: LiveMap<T>, m: LiveMap<T>, gone: set<int>, v: Info<T>)
    requires Enabled(ci, both) && ci.parent !in both && Merged(ci, writes, both) == v
    requires forall k :: k in both && k != ci.major && k != ci.minor <==> k in m && k !in gone && k != ci.major && k != ci.minor
    requires forall k :: k in both && k != ci.major && k != ci.minor ==> both[k] == m[k]
    requires forall k :: k == ci.major || k == ci.minor ==> k != ci.parent && (k in m ==> k in gone)
    ensures Collapse(ci, writes, both) == (m - gone)[ci.parent := v] && ci.major !in (m - gone)[ci.parent := v]
    ensures ci.minor !in (m - gone)[ci.parent := v]
  {
    hide Merged;
    var r, f := Collapse(ci, writes, both), (m - gone)[ci.parent := v];
    forall k
      ensures k in r <==> k in f
      ensures k in r ==> r[k] == f[k]
    {
      if k == ci.major || k == ci.minor {
        assert k !in f && k !in r;
      }
    }
    assert r.Keys == f.Keys;
  }

  lemma {:induction false} UpwardsPass<T>(t: Tree, items: seq<ConflictItem>, orient: Orientation, writes: WriteTable,
                                          leaves: LiveMap<T>, m: LiveMap<T>)
    requires Distinct(t) && Fresh(t, leaves, m) && Listed(items, t, orient)
    ensures LeafIds(t) <= leaves.Keys
    ensures Pass(Upwards(t, items, orient), writes, m) == Folded(t, orient, writes, leaves, m)
  {
    match t
    case Leaf(id) => assert (m - {id})[id := leaves[id]] == m;
    case Chain(_, below) => UpwardsPass(below, items, orient, writes, leaves, m);
    case Node(_, left, right) =>
      FreshBranches(t, leaves, m);
      UpwardsPass(left, items, orient, writes, leaves, m);
      FreshBeside(left, right, orient, writes, leaves, m);
      var one := Folded(left, orient, writes, leaves, m);
      UpwardsPass(right, items, orient, writes, leaves, one);
      var both := Folded(right, orient, writes, leaves, one);
      var here := Filter(items, Only(ItemAt(t, orient)));
      PassAppend(Upwards(left, items, orient), Upwards(right, items, orient), writes, m);
      PassAppend(Upwards(left, items, orient) + Upwards(right, items, orient), here, writes, m);
      FireHere(t, items, orient, writes, leaves, m, both);
  }

  // ----- And so does the whole loop -----

  /** What merging the forest's trees in m leaves: each tree's merge under its
      key, and of the rest of m what is not in the forest. */
  ghost predicate MergedForest<T>(ts: seq<Tree>, orient: Orientation, writes: WriteTable, leaves: LiveMap<T>,
                                  m: LiveMap<T>, r: LiveMap<T>) {
    (forall i :: 0 <= i < |ts| ==>
       LeafIds(ts[i]) <= leaves.Keys && Key(ts[i]) in r && r[Key(ts[i])] == TreeMerge(ts[i], orient, writes, leaves))
    && (forall k :: k in r ==> k in KeysOf(ts) || (k in m && k !in ForestLeafIds(ts)))
    && (forall k :: k in m && (forall i :: 0 <= i < |ts| ==> k !in Ids(ts[i])) ==> k in r && r[k] == m[k])
  }

  lemma {:induction false} UpwardsAllPass<T>(ts: seq<Tree>, items: seq<ConflictItem>, orient: Orientation, writes: WriteTable,
                                             leaves: LiveMap<T>, m: LiveMap<T>)
    requires DistinctForest(ts) && forall i :: 0 <= i < |ts| ==> Fresh(ts[i], leaves, m) && Listed(items, ts[i], orient)
    ensures MergedForest(ts, orient, writes, leaves, m, Pass(UpwardsAll(ts, items, orient), writes, m))
  {
    hide MergedForest, Fresh, Listed, Upwards, TreeMerge, Ids, LeafIds, DistinctForest, Folded, Key;
    if ts == [] {
      assert MergedForest(ts, orient, writes, leaves, m, m) by {
        NothingMerged(orient, writes, leaves, m);
      }
    } else {
      var rest := ts[1..];
      FirstDistinct(ts);
      RestOfForest(ts);
      UpwardsPass(ts[0], items, orient, writes, leaves, m);
      var one := Folded(ts[0], orient, writes, leaves, m);
      forall i | 0 <= i < |rest|
        ensures Fresh(rest[i], leaves, one) && Listed(items, rest[i], orient)
      {
        assert rest[i] == ts[i + 1];
        FreshBeside(ts[0], rest[i], orient, writes, leaves, m);
      }
      UpwardsAllPass(rest, items, orient, writes, leaves, one);
      PassAppend(Upwards(ts[0], items, orient), UpwardsAll(rest, items, orient), writes, m);
      FirstStays(ts, orient, writes, leaves, m, Pass(UpwardsAll(rest, items, orient), writes, one));
    }
  }

  lemma NothingMerged<T>(orient: Orientation, writes: WriteTable, leaves: LiveMap<T>, m: LiveMap<T>)
    ensures MergedForest([], orient, writes, leaves, m, m)
  {
  }

  lemma FirstDistinct(ts: seq<Tree>)
    requires ts != [] && DistinctForest(ts)
    ensures Distinct(ts[0]) && forall i :: 0 <= i < |ts[1..]| ==> Ids(ts[0]) !! Ids(ts[1..][i])
  {
    assert forall i :: 0 <= i < |ts[1..]| ==> ts[1..][i] == ts[i + 1];
  }

  /** The rest of the forest leaves the first tree's merge alone. */
  lemma FirstStays<T>(ts: seq<Tree>, orient: Orientation, writes: WriteTable, leaves: LiveMap<T>, m: LiveMap<T>, r: LiveMap<T>)
    requires ts != [] && DistinctForest(ts) && LeafIds(ts[0]) <= leaves.Keys
    requires MergedForest(ts[1..], orient, writes, leaves, Folded(ts[0], orient, writes, leaves, m), r)
    ensures MergedForest(ts, orient, writes, leaves, m, r)
  {
    var rest := ts[1..];
    RestOfForest(ts);
    ForestLeafIdsCons(ts);
    KeysOfCons(ts);
    hide DistinctForest, TreeMerge, Ids, LeafIds, KeysOf, ForestLeafIds, Key;
    assert Key(ts[0]) in Ids(ts[0]);
    forall i | 0 <= i < |ts|
      ensures LeafIds(ts[i]) <= leaves.Keys && Key(ts[i]) in r && r[Key(ts[i])] == TreeMerge(ts[i], orient, writes, leaves)
    {
      if i > 0 {
        assert ts[i] == rest[i - 1];
      }
    }
    forall k | k in m && forall i :: 0 <= i < |ts| ==> k !in Ids(ts[i])
      ensures k in r && r[k] == m[k]
    {
      assert k !in Ids(ts[0]) && LeafIds(ts[0]) <= Ids(ts[0]);
      forall i | 0 <= i < |rest|
        ensures k !in Ids(rest[i])
      {
        assert rest[i] == ts[i + 1];
      }
    }
  }

  lemma PermutedListFor(items: seq<ConflictItem>, items': seq<ConflictItem>, ts: seq<Tree>)
    requires ListFor(items, ts) && multiset(items') == multiset(items)
    ensures ListFor(items', ts)
  {
    assert forall ci :: ci in items <==> ci in multiset(items);
    assert forall ci :: ci in items' <==> ci in multiset(items');
    forall i | 0 <= i < |items'|
      ensures NamesOne(items'[i], ts)
    {
      assert items'[i] in items;
    }
    forall i | 0 <= i < |ts|
      ensures Covered(ts[i], items')
    {
      CoveredBySame(ts[i], items, items');
    }
  }

  lemma AllFresh<T>(ts: seq<Tree>, leaves: LiveMap<T>)
    requires DistinctForest(ts) && leaves.Keys == ForestLeafIds(ts)
    ensures forall i :: 0 <= i < |ts| ==> Fresh(ts[i], leaves, leaves)
  {
    forall i | 0 <= i < |ts|
      ensures Fresh(ts[i], leaves, leaves)
    {
      forall k | k in LeafIds(ts[i])
        ensures k in leaves
      {
        assert k in ForestLeafIds(ts);
      }
      forall k | k in Ids(ts[i]) && k in leaves
        ensures k in LeafIds(ts[i])
      {
        var j :| 0 <= j < |ts| && k in LeafIds(ts[j]);
      }
    }
  }

  lemma OnlyKeysLeft<T>(ts: seq<Tree>, orient: Orientation, writes: WriteTable, leaves: LiveMap<T>, r: LiveMap<T>)
    requires leaves.Keys == ForestLeafIds(ts) && MergedForest(ts, orient, writes, leaves, leaves, r)
    ensures r.Keys == KeysOf(ts)
    ensures forall i :: 0 <= i < |ts| ==>
              LeafIds(ts[i]) <= leaves.Keys && Key(ts[i]) in r && r[Key(ts[i])] == TreeMerge(ts[i], orient, writes, leaves)
  {
    hide Key, ForestLeafIds, TreeMerge, LeafIds, Ids;
    forall k
      ensures k in r.Keys <==> k in KeysOf(ts)
    {
      assert k in r ==> k in leaves.Keys || k in KeysOf(ts);
    }
  }

  lemma NothingLeftToFire<T>(items: seq<ConflictItem>, ts: seq<Tree>, r: LiveMap<T>)
    requires DistinctForest(ts) && ListFor(items, ts) && r.Keys == KeysOf(ts)
    ensures forall i :: 0 <= i < |items| ==> !Enabled(items[i], r)
  {
    hide Names, Ids, Covered, Key;
    forall i | 0 <= i < |items|
      ensures !Enabled(items[i], r)
    {
      var ci := items[i];
      assert NamesOne(ci, ts);
      var j :| 0 <= j < |ts| && Names(ci, ts[j]);
      NamesIrreflexive(ci, ts[j]);
      if Enabled(ci, r) {
        KeyOfTree(ts, j, ci.major);
        KeyOfTree(ts, j, ci.minor);
        assert false;
      }
    }
  }

  lemma KeyOfTree(ts: seq<Tree>, j: nat, k: int)
    requires DistinctForest(ts) && j < |ts| && k in KeysOf(ts) && k in Ids(ts[j])
    ensures k == Key(ts[j])
  {
    hide Ids, Key;
    var i := KeyIndex(ts, k);
    assert Key(ts[i]) in Ids(ts[i]);
    DisjointTrees(ts, i, j);
  }

  lemma DisjointTrees(ts: seq<Tree>, i: nat, j: nat)
    requires DistinctForest(ts) && i < |ts| && j < |ts|
    ensures i != j ==> Ids(ts[i]) !! Ids(ts[j])
  {
  }

  lemma SettledAfterFirstPass<T>(ts: seq<Tree>, items: seq<ConflictItem>, items': seq<ConflictItem>, orient: Orientation,
                                 writes: WriteTable, leaves: LiveMap<T>, r: LiveMap<T>)
    requires DistinctForest(ts) && ListFor(items', ts) && Irreflexive(items') && items' == Reordered(ts, items, orient)
    requires r == Pass(UpwardsAll(ts, items, orient), writes, leaves) && r.Keys == KeysOf(ts)
    ensures Loop(items', writes, leaves) == r
  {
    hide KeysOf, ListFor, DistinctForest, UpwardsAll, FollowsOne;
    NothingLeftToFire(items', ts, r);
    var up, rest := UpwardsAll(ts, items, orient), Filter(items, ci => !FollowsOne(ci, ts, orient));
    PassAppend(up, rest, writes, leaves);
    forall i | 0 <= i < |rest|
      ensures !Enabled(rest[i], r)
    {
      assert items'[|up| + i] == rest[i];
    }
    Conservation.NothingEnabled(rest, writes, r);
    Conservation.NothingEnabled(items', writes, r);
    assert Pass(items', writes, leaves) == r && Pass(items', writes, r) == r;
  }

  // ----- A service in which one function changes one field -----

  /** Function w puts v into field f; all others hand packets on as they are. */
  function OnlyWriter(w: int, f: Field, v: Bytes, row: int -> Profile): Service {
    Service((id, p) => if id == w && !IsNull(p) then Put(p, f, v) else p, row)
  }

  lemma IdentityRespects(s: Profile)
    requires WellProfiled(s)
    ensures Respects(p => p, s)
  {
    var f: Behaviour := p => p;
    forall p, q | !IsNull(p) && !IsNull(q) && AgreeOn(p, q, s.readSet)
      ensures SameReaction(f, s, p, q)
    {
      assert !IsNull(f(p)) && !IsNull(f(q)) && AgreeOn(f(p), f(q), s.writeSet);
    }
  }

  lemma OnlyWriterFaithful(w: int, f: Field, v: Bytes, row: int -> Profile, writes: WriteTable, id: int)
    requires WellProfiled(row(id)) && id in writes && writes[id] == row(id).writeSet && (id == w ==> f in row(w).writeSet)
    ensures FaithfulAt(id, OnlyWriter(w, f, v, row), writes)
  {
    var service := OnlyWriter(w, f, v, row);
    if id == w {
      AlwaysWriteRespects(f, v, row(w));
      RespectsPointwise(AlwaysWrite(f, v), NodeBehaviour(id, service), row(id));
    } else {
      IdentityRespects(row(id));
      RespectsPointwise(p => p, NodeBehaviour(id, service), row(id));
    }
  }

  lemma OnlyWriterMakesPackets(w: int, f: Field, v: Bytes, row: int -> Profile)
    requires FitsField(f, v)
    ensures MakesPackets(OnlyWriter(w, f, v, row))
  {
    hide WellFormed;
    var service := OnlyWriter(w, f, v, row);
    forall id, p | WellFormed(p)
      ensures WellFormed(service.run(id, p))
    {
      PutKeepsForm(p, f, v);
    }
  }

  lemma {:induction false} OnlyWriterRun(t: Tree, w: int, f: Field, v: Bytes, row: int -> Profile, p: Wire)
    requires Distinct(t) && !IsNull(p) && f in MERGEABLE
    ensures RunTree(t, OnlyWriter(w, f, v, row), p) == if w in Ids(t) then Put(p, f, v) else p
  {
    var service := OnlyWriter(w, f, v, row);
    PutKeepsNull(p, f, v);
    var q := service.run(t.id, p);
    match t
    case Leaf(_) =>
    case Chain(_, below) => OnlyWriterRun(below, w, f, v, row, q);
    case Node(_, left, right) =>
      OnlyWriterRun(left, w, f, v, row, q);
      PutKeepsNull(q, f, v);
      OnlyWriterRun(right, w, f, v, row, RunTree(left, service, q));
  }

  lemma {:induction false} OnlyWriterForest(ts: seq<Tree>, w: int, f: Field, v: Bytes, row: int -> Profile, p: Wire, i: nat)
    requires DistinctForest(ts) && !IsNull(p) && f in MERGEABLE && i < |ts| && w in Ids(ts[i])
    ensures RunForest(ts, OnlyWriter(w, f, v, row), p) == Put(p, f, v)
  {
    RestOfForest(ts);
    FirstDistinct(ts);
    OnlyWriterRun(ts[0], w, f, v, row, p);
    PutKeepsNull(p, f, v);
    if i == 0 {
      OnlyWriterAbsent(ts[1..], w, f, v, row, Put(p, f, v));
    } else {
      assert ts[1..][i - 1] == ts[i];
      OnlyWriterForest(ts[1..], w, f, v, row, p, i - 1);
    }
  }

  lemma {:induction false} OnlyWriterAbsent(ts: seq<Tree>, w: int, f: Field, v: Bytes, row: int -> Profile, p: Wire)
    requires DistinctForest(ts) && !IsNull(p) && f in MERGEABLE && forall j :: 0 <= j < |ts| ==> w !in Ids(ts[j])
    ensures RunForest(ts, OnlyWriter(w, f, v, row), p) == p
  {
    if ts == [] {
    } else {
      RestOfForest(ts);
      OnlyWriterRun(ts[0], w, f, v, row, p);
      OnlyWriterAbsent(ts[1..], w, f, v, row, p);
    }
  }

  /** No copy is dropped, and where w is not above, the copy is as it was sent. */
  lemma {:induction false} OnlyWriterPackets(t: Tree, w: int, f: Field, v: Bytes, row: int -> Profile, p: Wire)
    requires !IsNull(p) && f in MERGEABLE
    ensures forall k :: k in LeafIds(t) ==> !IsNull(LeafPackets(t, OnlyWriter(w, f, v, row), p)[k].fields)
    ensures w !in Ids(t) ==> forall k :: k in LeafIds(t) ==> LeafPackets(t, OnlyWriter(w, f, v, row), p)[k].fields == p
  {
    var service := OnlyWriter(w, f, v, row);
    PutKeepsNull(p, f, v);
    var q := service.run(t.id, p);
    match t
    case Leaf(_) =>
    case Chain(_, below) => OnlyWriterPackets(below, w, f, v, row, q);
    case Node(_, left, right) =>
      OnlyWriterPackets(left, w, f, v, row, q);
      OnlyWriterPackets(right, w, f, v, row, q);
  }

  /** Without w every tree merges to the packet it was sent. */
  lemma {:induction false} MergesToSame(t: Tree, orient: Orientation, writes: WriteTable, leaves: LiveMap<Bytes>, p: Wire)
    requires LeafIds(t) <= leaves.Keys && forall k :: k in LeafIds(t) ==> leaves[k].fields == p
    ensures TreeMerge(t, orient, writes, leaves).fields == p
  {
    match t
    case Leaf(_) =>
    case Chain(_, below) => MergesToSame(below, orient, writes, leaves, p);
    case Node(_, left, right) =>
      MergesToSame(left, orient, writes, leaves, p);
      MergesToSame(right, orient, writes, leaves, p);
      OverlaySame(TreeMerge(left, orient, writes, leaves), TreeMerge(right, orient, writes, leaves));
      OverlaySame(TreeMerge(right, orient, writes, leaves), TreeMerge(left, orient, writes, leaves));
  }

  // ----- Where a write is lost -----

  /** Some branch that gives way hides field f and has function w. */
  ghost predicate Loses(t: Tree, orient: Orientation, row: int -> Profile, w: int, f: Field) {
    match t
    case Leaf(_) => false
    case Chain(_, below) => Loses(below, orient, row, w, f)
    case Node(id, left, right) =>
      var minor := if orient(id) then right else left;
      (w in Ids(minor) && f !in Counted(minor, row))
      || Loses(left, orient, row, w, f) || Loses(right, orient, row, w, f)
  }

  lemma {:induction false} LosesWithin(t: Tree, orient: Orientation, row: int -> Profile, w: int, f: Field)
    requires Loses(t, orient, row, w, f)
    ensures w in Ids(t) && (Distinct(t) ==> w != t.id)
  {
    match t
    case Chain(_, below) => LosesWithin(below, orient, row, w, f);
    case Node(_, left, right) =>
      if Loses(left, orient, row, w, f) {
        LosesWithin(left, orient, row, w, f);
      } else if Loses(right, orient, row, w, f) {
        LosesWithin(right, orient, row, w, f);
      }
  }

  /** There the merge has the value the field had before. */
  lemma {:induction false} LostValue(t: Tree, orient: Orientation, row: int -> Profile, writes: WriteTable, w: int,
                                     f: Field, v: Bytes,
                                     p: Wire, leaves: LiveMap<Bytes>)
    requires Distinct(t) && Loses(t, orient, row, w, f) && !IsNull(p) && f in MERGEABLE
    requires Carries(leaves, t, OnlyWriter(w, f, v, row), p)
    requires Faithful(t, OnlyWriter(w, f, v, row), writes) && Independent(t, row)
    ensures TreeMerge(t, orient, writes, leaves).fields.Get(f) == p.Get(f)
  {
    LosesWithin(t, orient, row, w, f);
    match t
    case Chain(_, below) => LostValue(below, orient, row, writes, w, f, v, p, leaves);
    case Node(_, left, right) =>
      NodeParts(t, orient, row, writes, w, f, v, p, leaves);
      hide *;
      BranchValue(left, orient, row, writes, w, f, v, p, leaves);
      BranchValue(right, orient, row, writes, w, f, v, p, leaves);
      if Loses(left, orient, row, w, f) {
        LosesWithin(left, orient, row, w, f);
        LostValue(left, orient, row, writes, w, f, v, p, leaves);
      } else if Loses(right, orient, row, w, f) {
        LosesWithin(right, orient, row, w, f);
        LostValue(right, orient, row, writes, w, f, v, p, leaves);
      }
      KeptAtNode(t, orient, writes, leaves, f, p.Get(f));
  }

  /** What holds of a node's branches, w being in one of them. */
  lemma NodeParts(t: Tree, orient: Orientation, row: int -> Profile, writes: WriteTable, w: int, f: Field, v: Bytes,
                  p: Wire, leaves: LiveMap<Bytes>)
    requires t.Node? && Distinct(t) && Loses(t, orient, row, w, f) && w != t.id
    requires Carries(leaves, t, OnlyWriter(w, f, v, row), p)
    requires Faithful(t, OnlyWriter(w, f, v, row), writes) && Independent(t, row)
    ensures Carries(leaves, t.left, OnlyWriter(w, f, v, row), p) && Carries(leaves, t.right, OnlyWriter(w, f, v, row), p)
    ensures LeafIds(t.left) <= leaves.Keys && LeafIds(t.right) <= leaves.Keys
    ensures Faithful(t.left, OnlyWriter(w, f, v, row), writes) && Faithful(t.right, OnlyWriter(w, f, v, row), writes)
    ensures Independent(t.left, row) && Independent(t.right, row) && Distinct(t.left) && Distinct(t.right)
    ensures w in Ids(t.left) ==> w !in Ids(t.right)
    ensures var minor := if orient(t.id) then t.right else t.left;
      (w in Ids(minor) && f !in Counted(minor, row)) || Loses(t.left, orient, row, w, f) || Loses(t.right, orient, row, w, f)
  {
    hide FaithfulAt;
    CarriesBranches(t, OnlyWriter(w, f, v, row), p, leaves);
    assert OnlyWriter(w, f, v, row).run(t.id, p) == p;
  }

  /** A value that the major branch has, and the minor has or does not count
      as written, is the node's. */
  lemma KeptAtNode(t: Tree, orient: Orientation, writes: WriteTable, leaves: LiveMap<Bytes>, f: Field, v: Bytes)
    requires t.Node? && LeafIds(t) <= leaves.Keys && LeafIds(t.left) <= leaves.Keys && LeafIds(t.right) <= leaves.Keys
    requires var major, minor := if orient(t.id) then t.left else t.right, if orient(t.id) then t.right else t.left;
      TreeMerge(major, orient, writes, leaves).fields.Get(f) == v
      && (f !in TreeMerge(minor, orient, writes, leaves).written || TreeMerge(minor, orient, writes, leaves).fields.Get(f) == v)
    ensures TreeMerge(t, orient, writes, leaves).fields.Get(f) == v
  {
    var l, r := TreeMerge(t.left, orient, writes, leaves), TreeMerge(t.right, orient, writes, leaves);
    assert Overlay(l, r).fields.Get(f) == Choose(f, l, r);
    assert Overlay(r, l).fields.Get(f) == Choose(f, r, l);
  }

  /** A branch counts what it counts, and keeps the field's value if w is not in it. */
  lemma BranchValue(t: Tree, orient: Orientation, row: int -> Profile, writes: WriteTable, w: int, f: Field, v: Bytes,
                    p: Wire, leaves: LiveMap<Bytes>)
    requires Distinct(t) && !IsNull(p) && f in MERGEABLE
    requires Carries(leaves, t, OnlyWriter(w, f, v, row), p)
    requires Faithful(t, OnlyWriter(w, f, v, row), writes) && Independent(t, row)
    ensures TreeMerge(t, orient, writes, leaves).written == Counted(t, row)
    ensures w !in Ids(t) ==> TreeMerge(t, orient, writes, leaves).fields == p
  {
    var service := OnlyWriter(w, f, v, row);
    TreeMergeIsSequential(t, service, writes, orient, p, leaves);
    OnlyWriterPackets(t, w, f, v, row, p);
    if w !in Ids(t) {
      MergesToSame(t, orient, writes, leaves, p);
    }
  }

  lemma {:induction false} SomeWriter(t: Tree, row: int -> Profile, f: Field) returns (w: int)
    requires f in TreeProfile(t, row).writeSet
    ensures w in Ids(t) && f in row(w).writeSet
  {
    if f in row(t.id).writeSet {
      RootIn(t);
      w := t.id;
    } else {
      match t
      case Chain(_, below) => w := SomeWriter(below, row, f);
      case Node(_, left, right) =>
        if f in TreeProfile(left, row).writeSet {
          w := SomeWriter(left, row, f);
        } else {
          w := SomeWriter(right, row, f);
        }
    }
  }

  /** A hidden write in a branch that some item lets give way: at the node
      `at`, if the orientation is that item's. */
  lemma {:induction false} FindLoss(items: seq<ConflictItem>, t: Tree, row: int -> Profile) returns (at: int, left: bool,
                                    w: int, f: Field)
    requires Distinct(t) && !NothingHidden(items, t, row)
    ensures at in Ids(t) && w in Ids(t) && f in row(w).writeSet
    ensures forall orient: Orientation {:trigger Loses(t, orient, row, w, f)} :: orient(at) == left ==> Loses(t, orient, row, w, f)
    ensures forall orient: Orientation, other: Orientation {:trigger Listed(items, t, orient), Listed(items, t, other)} ::
              Listed(items, t, orient) && other(at) == left && (forall id :: id != at ==> other(id) == orient(id))
              ==> Listed(items, t, other)
  {
    match t
    case Chain(_, below) => at, left, w, f := FindLoss(items, below, row);
    case Node(id, l, r) =>
      if ConflictItem(Key(l), Key(r), id) in items && Hidden(r, row) != {} {
        at, left := id, true;
        f := Pick(Hidden(r, row));
        w := SomeWriter(r, row, f);
        ListedElsewhere(items, t, id);
      } else if ConflictItem(Key(r), Key(l), id) in items && Hidden(l, row) != {} {
        at, left := id, false;
        f := Pick(Hidden(l, row));
        w := SomeWriter(l, row, f);
        ListedElsewhere(items, t, id);
      } else if !NothingHidden(items, l, row) {
        at, left, w, f := FindLoss(items, l, row);
        ListedBeside(items, r, at);
      } else {
        at, left, w, f := FindLoss(items, r, row);
        ListedBeside(items, l, at);
      }
  }

  lemma ListedElsewhere(items: seq<ConflictItem>, t: Tree, at: int)
    requires t.Node? && Distinct(t) && at == t.id
    ensures forall orient: Orientation, other: Orientation {:trigger Listed(items, t, orient), Listed(items, t, other)} ::
              Listed(items, t, orient) && (forall id :: id != at ==> other(id) == orient(id))
              ==> Listed(items, t.left, other) && Listed(items, t.right, other)
  {
    ListedBeside(items, t.left, at);
    ListedBeside(items, t.right, at);
  }

  lemma ListedBeside(items: seq<ConflictItem>, t: Tree, at: int)
    requires at !in Ids(t)
    ensures forall orient: Orientation, other: Orientation {:trigger Listed(items, t, orient), Listed(items, t, other)} ::
              Listed(items, t, orient) && (forall id :: id != at ==> other(id) == orient(id)) ==> Listed(items, t, other)
  {
    forall orient: Orientation, other: Orientation | Listed(items, t, orient) && (forall id :: id != at ==> other(id) == orient(id))
      ensures Listed(items, t, other)
    {
      SameListed(items, t, orient, other);
    }
  }

  lemma {:induction false} SameListed(items: seq<ConflictItem>, t: Tree, orient: Orientation, other: Orientation)
    requires Listed(items, t, orient) && forall id :: id in Ids(t) ==> other(id) == orient(id)
    ensures Listed(items, t, other)
  {
    match t
    case Leaf(_) =>
    case Chain(_, below) => SameListed(items, below, orient, other);
    case Node(_, left, right) =>
      SameListed(items, left, orient, other);
      SameListed(items, right, orient, other);
  }

  // ----- Exactly when a service merges to its sequential run -----

  /** The merger's table has the write sets of the rows. */
  ghost predicate RowsFit(ts: seq<Tree>, row: int -> Profile, writes: WriteTable) {
    forall i, id :: 0 <= i < |ts| && id in Ids(ts[i]) ==> WellProfiled(row(id)) && id in writes && writes[id] == row(id).writeSet
  }

  /** Within trees and between them, what comes first writes nothing that comes later reads. */
  ghost predicate IndependentAll(ts: seq<Tree>, row: int -> Profile) {
    (forall i :: 0 <= i < |ts| ==> Independent(ts[i], row)) && IndependentForest(ts, row)
  }

  ghost predicate FaithfulAll(ts: seq<Tree>, service: Service, writes: WriteTable) {
    forall i :: 0 <= i < |ts| ==> Faithful(ts[i], service, writes)
  }

  ghost predicate SequentialFor(items: seq<ConflictItem>, ts: seq<Tree>, service: Service, writes: WriteTable, p: Wire) {
    Irreflexive(items) && ForestLeafPackets(ts, service, p) != map[]
    && MergeOutcome(items, writes, ForestLeafPackets(ts, service, p)) == OutcomeOf(RunForest(ts, service, p))
  }

  lemma IsSequential(items: seq<ConflictItem>, ts: seq<Tree>, service: Service, writes: WriteTable, p: Wire)
    requires Irreflexive(items) && ForestLeafPackets(ts, service, p) != map[]
    requires MergeOutcome(items, writes, ForestLeafPackets(ts, service, p)) == OutcomeOf(RunForest(ts, service, p))
    ensures SequentialFor(items, ts, service, writes, p)
  {
  }

  /** For every order of the list, all functions within their rows and every
      real packet, the merger sends on what the sequential run would. */
  ghost predicate AlwaysSequential(items: seq<ConflictItem>, ts: seq<Tree>, row: int -> Profile, writes: WriteTable) {
    forall items': seq<ConflictItem>, service: Service, p: Wire {:trigger SequentialFor(items', ts, service, writes, p)} ::
      multiset(items') == multiset(items) && service.row == row && FaithfulAll(ts, service, writes)
      && MakesPackets(service) && WellFormed(p) ==>
        SequentialFor(items', ts, service, writes, p)
  }

  lemma {:induction false} NothingHiddenBySame(items: seq<ConflictItem>, items': seq<ConflictItem>, t: Tree, row: int -> Profile)
    requires NothingHidden(items, t, row) && forall ci :: ci in items' ==> ci in items
    ensures NothingHidden(items', t, row)
  {
    match t
    case Leaf(_) =>
    case Chain(_, below) => NothingHiddenBySame(items, items', below, row);
    case Node(_, left, right) =>
      NothingHiddenBySame(items, items', left, row);
      NothingHiddenBySame(items, items', right, row);
  }

  lemma PermutedAllCounted(items: seq<ConflictItem>, items': seq<ConflictItem>, ts: seq<Tree>, row: int -> Profile)
    requires AllCounted(items, ts, row) && multiset(items') == multiset(items)
    ensures AllCounted(items', ts, row)
  {
    assert forall ci :: ci in items <==> ci in multiset(items);
    assert forall ci :: ci in items' <==> ci in multiset(items');
    forall i | 0 <= i < |ts|
      ensures NothingHidden(items', ts[i], row)
    {
      NothingHiddenBySame(items, items', ts[i], row);
    }
  }

  /** The fold ends with a value that every packet has, or does not count as written. */
  lemma {:induction false} FoldKeepsValue<T>(acc: Info<T>, keys: set<int>, m: LiveMap<T>, f: Field, v: T)
    requires keys <= m.Keys && acc.fields.Get(f) == v
    requires forall k :: k in keys ==> f !in m[k].written || m[k].fields.Get(f) == v
    ensures Fold(acc, keys, m).fields.Get(f) == v
    decreases keys
  {
    if keys == {} {
    } else {
      var k := Min(keys);
      assert Overlay(acc, m[k]).fields.Get(f) == Choose(f, acc, m[k]);
      FoldKeepsValue(Overlay(acc, m[k]), keys - {k}, m, f, v);
    }
  }

  lemma FoldAllKeepsValue<T>(m: LiveMap<T>, f: Field, v: T)
    requires m != map[]
    requires forall k :: k in m ==> f !in m[k].written || m[k].fields.Get(f) == v
    requires forall k :: k in m && (forall j :: j in m ==> k <= j) ==> m[k].fields.Get(f) == v
    ensures FoldAll(m).fields.Get(f) == v
  {
    assert m.Keys != {};
    var k := Min(m.Keys);
    FoldKeepsValue(m[k], m.Keys - {k}, m, f, v);
  }

  /** The orientation with another choice at one node. */
  function Turned(orient: Orientation, at: int, left: bool): Orientation {
    id => if id == at then left else orient(id)
  }

  /** If a write is hidden where it can be lost, then some function that alone
      changes its field is not heard, whatever it writes and whatever packet
      is sent, for some order of the list. */
  lemma HiddenWriteIsLost(items: seq<ConflictItem>, ts: seq<Tree>, row: int -> Profile, writes: WriteTable, p: Wire)
    returns (items': seq<ConflictItem>, i: nat, w: int, f: Field)
    requires ts != [] && DistinctForest(ts) && ListFor(items, ts) && RowsFit(ts, row, writes) && IndependentAll(ts, row)
    requires !AllCounted(items, ts, row) && !IsNull(p)
    ensures multiset(items') == multiset(items) && Irreflexive(items')
    ensures i < |ts| && w in Ids(ts[i]) && f in row(w).writeSet
    ensures forall v: Bytes :: LostFor(items', ts, row, writes, p, w, f, v)
  {
    var orient := OrientationOf(items, ts);
    forall j | 0 <= j < |ts|
      ensures Listed(items, ts[j], orient)
    {
      ListsItsOrientation(items, ts, j);
    }
    if j :| 0 <= j < |ts| && !NothingHidden(items, ts[j], row) {
      i := j;
      var at, left;
      at, left, w, f := FindLoss(items, ts[i], row);
      items' := LostInTree(items, ts, row, writes, p, orient, i, at, left, w, f);
    } else {
      items', i, w, f := LostInForest(items, ts, row, writes, p, orient);
    }
  }

  /** The merge delivers the packet with field f as it was. */
  ghost predicate LostFor(items: seq<ConflictItem>, ts: seq<Tree>, row: int -> Profile, writes: WriteTable, p: Wire,
                          w: int, f: Field, v: Bytes) {
    var service := OnlyWriter(w, f, v, row);
    FaithfulAll(ts, service, writes) && RunForest(ts, service, p) == Put(p, f, v) && !IsNull(Put(p, f, v))
    && Irreflexive(items) && ForestLeafPackets(ts, service, p) != map[]
    && MergeOutcome(items, writes, ForestLeafPackets(ts, service, p)).Delivered?
    && MergeOutcome(items, writes, ForestLeafPackets(ts, service, p)).packet.Get(f) == p.Get(f)
  }

  lemma LostInTree(items: seq<ConflictItem>, ts: seq<Tree>, row: int -> Profile, writes: WriteTable, p: Wire, orient: Orientation,
                   i: nat, at: int, left: bool, w: int, f: Field) returns (items': seq<ConflictItem>)
    requires ts != [] && DistinctForest(ts) && ListFor(items, ts) && RowsFit(ts, row, writes) && IndependentAll(ts, row) && !IsNull(p)
    requires forall j :: 0 <= j < |ts| ==> Listed(items, ts[j], orient)
    requires i < |ts| && at in Ids(ts[i]) && w in Ids(ts[i]) && f in row(w).writeSet
    requires forall o: Orientation {:trigger Loses(ts[i], o, row, w, f)} :: o(at) == left ==> Loses(ts[i], o, row, w, f)
    requires forall o: Orientation, other: Orientation {:trigger Listed(items, ts[i], o), Listed(items, ts[i], other)} ::
               Listed(items, ts[i], o) && other(at) == left && (forall id :: id != at ==> other(id) == o(id))
               ==> Listed(items, ts[i], other)
    ensures multiset(items') == multiset(items) && Irreflexive(items')
    ensures forall v: Bytes :: LostFor(items', ts, row, writes, p, w, f, v)
  {
    hide Listed, Loses, Ids, NothingHidden;
    var turned := Turned(orient, at, left);
    forall j | 0 <= j < |ts|
      ensures Listed(items, ts[j], turned)
    {
      if j != i {
        DisjointTrees(ts, i, j);
        ListedBeside(items, ts[j], at);
      }
    }
    assert Loses(ts[i], turned, row, w, f);
    items' := Reordered(ts, items, turned);
    forall v: Bytes
      ensures multiset(items') == multiset(items) && LostFor(items', ts, row, writes, p, w, f, v)
    {
      LostByTurning(items, ts, row, writes, p, turned, i, w, f, v);
    }
    ReorderedIsPermutation(ts, items, turned);
    PermutedListFor(items, items', ts);
    ListForIrreflexive(items', ts);
  }

  lemma LostByTurning(items: seq<ConflictItem>, ts: seq<Tree>, row: int -> Profile, writes: WriteTable, p: Wire,
                      orient: Orientation,
                      i: nat, w: int, f: Field, v: Bytes)
    requires ts != [] && DistinctForest(ts) && ListFor(items, ts) && RowsFit(ts, row, writes) && IndependentAll(ts, row) && !IsNull(p)
    requires forall j :: 0 <= j < |ts| ==> Listed(items, ts[j], orient)
    requires i < |ts| && w in Ids(ts[i]) && f in row(w).writeSet && Loses(ts[i], orient, row, w, f)
    ensures multiset(Reordered(ts, items, orient)) == multiset(items)
    ensures LostFor(Reordered(ts, items, orient), ts, row, writes, p, w, f, v)
  {
    hide *;
    ReorderedIsPermutation(ts, items, orient);
    var service := OnlyWriter(w, f, v, row);
    var leaves := ForestLeafPackets(ts, service, p);
    OnlyWriterAll(ts, row, writes, i, w, f, v);
    ReorderedMerges(ts, items, orient, writes, leaves);
    var r := Loop(Reordered(ts, items, orient), writes, leaves);
    forall k | k in r
      ensures r[k].fields.Get(f) == p.Get(f)
    {
      TreeValueLost(ts, orient, row, writes, p, i, w, f, v, r, k);
    }
    Delivers(items, ts, orient, row, writes, p, i, w, f, v, r);
  }

  /** The loop on the reordered list. */
  lemma ReorderedMerges(ts: seq<Tree>, items: seq<ConflictItem>, orient: Orientation, writes: WriteTable, leaves: LiveMap<Bytes>)
    requires DistinctForest(ts) && ListFor(items, ts) && leaves.Keys == ForestLeafIds(ts)
    requires forall i :: 0 <= i < |ts| ==> Listed(items, ts[i], orient)
    ensures multiset(Reordered(ts, items, orient)) == multiset(items) && Irreflexive(Reordered(ts, items, orient))
    ensures forall i :: 0 <= i < |ts| ==> LeafIds(ts[i]) <= leaves.Keys
    ensures var r := Loop(Reordered(ts, items, orient), writes, leaves);
      r.Keys == KeysOf(ts) && forall i :: 0 <= i < |ts| ==> Key(ts[i]) in r && r[Key(ts[i])] == TreeMerge(ts[i], orient, writes, leaves)
  {
    hide *;
    var items' := Reordered(ts, items, orient);
    ReorderedIsPermutation(ts, items, orient);
    PermutedListFor(items, items', ts);
    ListForIrreflexive(items', ts);
    AllFresh(ts, leaves);
    UpwardsAllPass(ts, items, orient, writes, leaves, leaves);
    var r := Pass(UpwardsAll(ts, items, orient), writes, leaves);
    OnlyKeysLeft(ts, orient, writes, leaves, r);
    SettledAfterFirstPass(ts, items, items', orient, writes, leaves, r);
  }

  lemma OnlyWriterAll(ts: seq<Tree>, row: int -> Profile, writes: WriteTable, i: nat, w: int, f: Field, v: Bytes)
    requires RowsFit(ts, row, writes) && IndependentAll(ts, row) && i < |ts| && w in Ids(ts[i]) && f in row(w).writeSet
    ensures FaithfulAll(ts, OnlyWriter(w, f, v, row), writes) && FaithfulForest(ts, OnlyWriter(w, f, v, row), writes)
    ensures f in MERGEABLE && OnlyWriter(w, f, v, row).row == row
  {
    hide Respects;
    var service := OnlyWriter(w, f, v, row);
    forall j | 0 <= j < |ts|
      ensures Faithful(ts[j], service, writes)
    {
      forall id | id in Ids(ts[j])
        ensures FaithfulAt(id, service, writes)
      {
        OnlyWriterFaithful(w, f, v, row, writes, id);
      }
    }
  }

  lemma TreeValueLost(ts: seq<Tree>, orient: Orientation, row: int -> Profile, writes: WriteTable, p: Wire, i: nat, w: int,
                      f: Field, v: Bytes,
                      r: LiveMap<Bytes>, k: int)
    requires DistinctForest(ts) && FaithfulAll(ts, OnlyWriter(w, f, v, row), writes) && IndependentAll(ts, row)
    requires !IsNull(p) && f in MERGEABLE && i < |ts| && w in Ids(ts[i]) && Loses(ts[i], orient, row, w, f)
    requires r.Keys == KeysOf(ts) && k in r
    requires forall j :: 0 <= j < |ts| ==> LeafIds(ts[j]) <= ForestLeafPackets(ts, OnlyWriter(w, f, v, row), p).Keys
    requires forall j :: 0 <= j < |ts| ==>
               Key(ts[j]) in r && r[Key(ts[j])] == TreeMerge(ts[j], orient, writes, ForestLeafPackets(ts, OnlyWriter(w, f, v, row), p))
    ensures r[k].fields.Get(f) == p.Get(f)
  {
    hide TreeMerge, Loses, Ids, LeafIds, Faithful, Key, ForestLeafPackets, Independent, IsNull;
    var service := OnlyWriter(w, f, v, row);
    var leaves := ForestLeafPackets(ts, service, p);
    var j := KeyIndex(ts, k);
    ForestCarries(ts, service, p, j);
    if j == i {
      LostValue(ts[i], orient, row, writes, w, f, v, p, leaves);
    } else {
      DisjointTrees(ts, i, j);
      BranchValue(ts[j], orient, row, writes, w, f, v, p, leaves);
    }
  }

  /** The loop's result delivers the old value. */
  lemma Delivers(items: seq<ConflictItem>, ts: seq<Tree>, orient: Orientation, row: int -> Profile, writes: WriteTable, p: Wire,
                 i: nat, w: int, f: Field, v: Bytes, r: LiveMap<Bytes>)
    requires ts != [] && DistinctForest(ts) && FaithfulForest(ts, OnlyWriter(w, f, v, row), writes) && IndependentAll(ts, row)
    requires FaithfulAll(ts, OnlyWriter(w, f, v, row), writes)
    requires !IsNull(p) && f in MERGEABLE && i < |ts| && w in Ids(ts[i])
    requires var items' := Reordered(ts, items, orient);
      Irreflexive(items') && r == Loop(items', writes, ForestLeafPackets(ts, OnlyWriter(w, f, v, row), p))
    requires forall k :: k in r ==> f !in r[k].written || r[k].fields.Get(f) == p.Get(f)
    requires forall k :: k in r && (forall j :: j in r ==> k <= j) ==> r[k].fields.Get(f) == p.Get(f)
    ensures LostFor(Reordered(ts, items, orient), ts, row, writes, p, w, f, v)
  {
    hide Reordered, Loop, FoldAll, ForestLeafPackets, RunForest, IsNull, MergeOutcome, Fold;
    var service := OnlyWriter(w, f, v, row);
    var items' := Reordered(ts, items, orient);
    var leaves := ForestLeafPackets(ts, service, p);
    SomePacket(ts, service, p);
    PutKeepsNull(p, f, v);
    OnlyWriterForest(ts, w, f, v, row, p, i);
    NullForest(ts, service, writes, p);
    DropTheorem(items', writes, leaves);
    LoopThenFold(items', writes, leaves, r);
    FoldAllKeepsValue(r, f, p.Get(f));
  }

  /** The fold meets a tree that hides a write after another tree. */
  lemma LostInForest(items: seq<ConflictItem>, ts: seq<Tree>, row: int -> Profile, writes: WriteTable, p: Wire,
                     orient: Orientation)
    returns (items': seq<ConflictItem>, i: nat, w: int, f: Field)
    requires ts != [] && DistinctForest(ts) && ListFor(items, ts) && RowsFit(ts, row, writes) && IndependentAll(ts, row) && !IsNull(p)
    requires forall j :: 0 <= j < |ts| ==> Listed(items, ts[j], orient)
    requires !FirstHides(ts, row)
    ensures multiset(items') == multiset(items) && Irreflexive(items')
    ensures i < |ts| && w in Ids(ts[i]) && f in row(w).writeSet
    ensures forall v: Bytes :: LostFor(items', ts, row, writes, p, w, f, v)
  {
    hide Listed, Ids, TreeProfile, Counted, Key;
    var h, j :| 0 <= h < |ts| && 0 <= j < |ts| && Key(ts[h]) < Key(ts[j]) && Hidden(ts[j], row) != {};
    i := j;
    f := Pick(Hidden(ts[i], row));
    w := SomeWriter(ts[i], row, f);
    items' := Reordered(ts, items, orient);
    forall v: Bytes
      ensures multiset(items') == multiset(items) && LostFor(items', ts, row, writes, p, w, f, v)
    {
      LostByFolding(items, ts, row, writes, p, orient, h, i, w, f, v);
    }
    ReorderedIsPermutation(ts, items, orient);
    PermutedListFor(items, items', ts);
    ListForIrreflexive(items', ts);
  }

  lemma LostByFolding(items: seq<ConflictItem>, ts: seq<Tree>, row: int -> Profile, writes: WriteTable, p: Wire,
                      orient: Orientation,
                      h: nat, i: nat, w: int, f: Field, v: Bytes)
    requires ts != [] && DistinctForest(ts) && ListFor(items, ts) && RowsFit(ts, row, writes) && IndependentAll(ts, row) && !IsNull(p)
    requires forall j :: 0 <= j < |ts| ==> Listed(items, ts[j], orient)
    requires h < |ts| && i < |ts| && Key(ts[h]) < Key(ts[i]) && f !in Counted(ts[i], row) && w in Ids(ts[i]) && f in row(w).writeSet
    ensures multiset(Reordered(ts, items, orient)) == multiset(items)
    ensures LostFor(Reordered(ts, items, orient), ts, row, writes, p, w, f, v)
  {
    hide *;
    ReorderedIsPermutation(ts, items, orient);
    var service := OnlyWriter(w, f, v, row);
    var leaves := ForestLeafPackets(ts, service, p);
    OnlyWriterAll(ts, row, writes, i, w, f, v);
    ReorderedMerges(ts, items, orient, writes, leaves);
    var r := Loop(Reordered(ts, items, orient), writes, leaves);
    forall k | k in r
      ensures if k == Key(ts[i]) then f !in r[k].written else r[k].fields.Get(f) == p.Get(f)
    {
      TreeValueBeside(ts, orient, row, writes, p, i, w, f, v, r, k);
    }
    Delivers(items, ts, orient, row, writes, p, i, w, f, v, r);
  }

  lemma TreeValueBeside(ts: seq<Tree>, orient: Orientation, row: int -> Profile, writes: WriteTable, p: Wire, i: nat,
                        w: int, f: Field, v: Bytes,
                        r: LiveMap<Bytes>, k: int)
    requires DistinctForest(ts) && FaithfulAll(ts, OnlyWriter(w, f, v, row), writes) && IndependentAll(ts, row)
    requires !IsNull(p) && f in MERGEABLE && i < |ts| && w in Ids(ts[i]) && f !in Counted(ts[i], row)
    requires r.Keys == KeysOf(ts) && k in r
    requires forall j :: 0 <= j < |ts| ==> LeafIds(ts[j]) <= ForestLeafPackets(ts, OnlyWriter(w, f, v, row), p).Keys
    requires forall j :: 0 <= j < |ts| ==>
               Key(ts[j]) in r && r[Key(ts[j])] == TreeMerge(ts[j], orient, writes, ForestLeafPackets(ts, OnlyWriter(w, f, v, row), p))
    ensures if k == Key(ts[i]) then f !in r[k].written else r[k].fields.Get(f) == p.Get(f)
  {
    hide TreeMerge, Ids, LeafIds, Faithful, Key, ForestLeafPackets, Independent, IsNull;
    var service := OnlyWriter(w, f, v, row);
    var leaves := ForestLeafPackets(ts, service, p);
    var j := KeyIndex(ts, k);
    ForestCarries(ts, service, p, j);
    BranchValue(ts[j], orient, row, writes, w, f, v, p, leaves);
    if j == i {
    } else {
      DisjointTrees(ts, i, j);
      assert Key(ts[j]) in Ids(ts[j]) && Key(ts[i]) in Ids(ts[i]);
    }
  }

  /** The main result: for every order of the conflict list, all functions
      within their rows and every packet, the merger sends on what the
      functions would have made of the packet one after the other, if and only
      if no write is hidden where it could be lost: in no branch that some
      item lets give way, and in no tree but the one the fold begins with. */
  lemma MergedServiceExactly(items: seq<ConflictItem>, ts: seq<Tree>, row: int -> Profile, writes: WriteTable)
    requires ts != [] && DistinctForest(ts) && ListFor(items, ts) && RowsFit(ts, row, writes) && IndependentAll(ts, row)
    ensures AlwaysSequential(items, ts, row, writes) <==> AllCounted(items, ts, row)
  {
    hide ListFor, DistinctForest, RowsFit, MergeOutcome, ForestLeafPackets, RunForest, Faithful, AllCounted, Independent, IndependentForest;
    if AllCounted(items, ts, row) {
      forall items': seq<ConflictItem>, service: Service, p: Wire
        | multiset(items') == multiset(items) && service.row == row && FaithfulAll(ts, service, writes)
        ensures SequentialFor(items', ts, service, writes, p)
      {
        PermutedListFor(items, items', ts);
        PermutedAllCounted(items, items', ts, row);
        MergedServiceIsSequential(items', ts, service, writes, p);
      }
    } else {
      SampleIsReal();
      var p := SamplePacket();
      var items', i, w, f := HiddenWriteIsLost(items, ts, row, writes, p);
      var v := OtherValue(f);
      assert LostFor(items', ts, row, writes, p, w, f, v);
      OnlyWriterMakesPackets(w, f, v, row);
      assert !SequentialFor(items', ts, OnlyWriter(w, f, v, row), writes, p);
    }
  }
}

/** The loop of `merge_packet` against the recursive merge of a tree. */
module MergeForest {
  import opened Packets
  import opened MergeSpec

  /** A service tree's leaves hold the packets. A node with two branches stands
      for the function they come from and is collapsed by the conflict items
      that name it as parent; a link of a chain has one branch and is never
      named. */
  datatype Tree = Leaf(id: int) | Chain(id: int, below: Tree) | Node(id: int, left: Tree, right: Tree)

  /** The key a tree's merged packet stands at: that of the nearest node below
      the chain it begins with. */
  function Key(t: Tree): (k: int)
    ensures k in Ids(t)
  {
    match t
    case Leaf(id) => id
    case Chain(_, below) => Key(below)
    case Node(id, _, _) => id
  }

  /** For each internal node: is its left branch the major one? */
  type Orientation = int -> bool

  function Ids(t: Tree): set<int> {
    match t
    case Leaf(id) => {id}
    case Chain(id, below) => {id} + Ids(below)
    case Node(id, left, right) => {id} + Ids(left) + Ids(right)
  }

  function LeafIds(t: Tree): (ids: set<int>)
    ensures ids <= Ids(t)
  {
    match t
    case Leaf(id) => {id}
    case Chain(_, below) => LeafIds(below)
    case Node(_, left, right) => LeafIds(left) + LeafIds(right)
  }

  /** No node id occurs twice. */
  ghost predicate Distinct(t: Tree) {
    match t
    case Leaf(_) => true
    case Chain(id, below) => id !in Ids(below) && Distinct(below)
    case Node(id, left, right) =>
      id !in Ids(left) && id !in Ids(right) && Ids(left) !! Ids(right) && Distinct(left) && Distinct(right)
  }

  ghost predicate DistinctForest(ts: seq<Tree>) {
    (forall i :: 0 <= i < |ts| ==> Distinct(ts[i])) &&
    (forall i, j :: 0 <= i < j < |ts| ==> Ids(ts[i]) !! Ids(ts[j]))
  }

  /** The merge by recursion on the tree. */
  function TreeMerge<T>(t: Tree, orient: Orientation, writes: WriteTable, leaves: LiveMap<T>): Info<T>
    requires LeafIds(t) <= leaves.Keys
  {
    match t
    case Leaf(id) => leaves[id]
    case Chain(_, below) => TreeMerge(below, orient, writes, leaves)
    case Node(id, left, right) =>
      var l := TreeMerge(left, orient, writes, leaves);
      var r := TreeMerge(right, orient, writes, leaves);
      var merged := if orient(id) then Overlay(l, r) else Overlay(r, l);
      Info(merged.fields, merged.written + ParentWrites(id, writes))
  }

  /** The item belongs to some internal node of the tree: it names that node
      as parent and the keys of its two branches as members, in the
      direction of the orientation. The opposite direction is allowed at
      nodes whose two branches merge to the same packet either way. */
  ghost predicate Belongs<T>(ci: ConflictItem, t: Tree, orient: Orientation, writes: WriteTable, leaves: LiveMap<T>)
    requires LeafIds(t) <= leaves.Keys
  {
    match t
    case Leaf(_) => false
    case Chain(_, below) => Belongs(ci, below, orient, writes, leaves)
    case Node(id, left, right) =>
      (ci.parent == id && BelongsHere(ci, t, orient, writes, leaves))
      || Belongs(ci, left, orient, writes, leaves)
      || Belongs(ci, right, orient, writes, leaves)
  }

  ghost predicate BelongsHere<T>(ci: ConflictItem, t: Tree, orient: Orientation, writes: WriteTable, leaves: LiveMap<T>)
    requires t.Node? && LeafIds(t) <= leaves.Keys
  {
    var l, r := TreeMerge(t.left, orient, writes, leaves), TreeMerge(t.right, orient, writes, leaves);
    if ci.major == Key(t.left) && ci.minor == Key(t.right) then orient(t.id) || Overlay(l, r) == Overlay(r, l)
    else ci.major == Key(t.right) && ci.minor == Key(t.left) && (!orient(t.id) || Overlay(l, r) == Overlay(r, l))
  }

  /** Every node with two branches is named as parent by an item between them. */
  ghost predicate Covered(t: Tree, items: seq<ConflictItem>) {
    match t
    case Leaf(_) => true
    case Chain(_, below) => Covered(below, items)
    case Node(id, left, right) =>
      (exists ci :: ci in items && ci.parent == id && Joins(ci, Key(left), Key(right)))
      && Covered(left, items) && Covered(right, items)
  }

  function ForestLeafIds(ts: seq<Tree>): set<int> {
    set i, k | 0 <= i < |ts| && k in LeafIds(ts[i]) :: k
  }

  /** The conflict list is made for this forest. */
  ghost predicate ForestList<T>(items: seq<ConflictItem>, ts: seq<Tree>, orient: Orientation, writes: WriteTable,
                                leaves: LiveMap<T>)
  {
    leaves.Keys == ForestLeafIds(ts)
    && (forall ci {:trigger HasHome(ci, ts, orient, writes, leaves)} :: ci in items ==> HasHome(ci, ts, orient, writes, leaves))
    && (forall i :: 0 <= i < |ts| ==> Covered(ts[i], items))
  }

  ghost predicate HasHome<T>(ci: ConflictItem, ts: seq<Tree>, orient: Orientation, writes: WriteTable, leaves: LiveMap<T>) {
    exists i :: 0 <= i < |ts| && BelongsTo(ci, ts[i], orient, writes, leaves)
  }

  ghost predicate BelongsTo<T>(ci: ConflictItem, t: Tree, orient: Orientation, writes: WriteTable, leaves: LiveMap<T>) {
    LeafIds(t) <= leaves.Keys && Belongs(ci, t, orient, writes, leaves)
  }

  /** The tree as the loop has left it: some nodes hold their merged
      branches, and every leaf is below or at exactly one key that is present. */
  ghost predicate Cut<T>(t: Tree, orient: Orientation, writes: WriteTable, leaves: LiveMap<T>, m: LiveMap<T>)
    requires LeafIds(t) <= leaves.Keys
  {
    match t
    case Leaf(id) => id in m && m[id] == leaves[id]
    case Chain(id, below) => id !in m && Cut(below, orient, writes, leaves, m)
    case Node(id, left, right) =>
      if id in m then
        m[id] == TreeMerge(t, orient, writes, leaves) && forall k :: k in Ids(t) && k != id ==> k !in m
      else
        Cut(left, orient, writes, leaves, m) && Cut(right, orient, writes, leaves, m)
  }

  lemma RootIn(t: Tree)
    ensures t.id in Ids(t)
  {
  }

  lemma {:induction false} BelongsMembers<T>(ci: ConflictItem, t: Tree, orient: Orientation, writes: WriteTable,
                                             leaves: LiveMap<T>)
    requires LeafIds(t) <= leaves.Keys && Distinct(t) && Belongs(ci, t, orient, writes, leaves)
    ensures {ci.major, ci.minor, ci.parent} <= Ids(t)
    ensures ci.major != ci.minor && ci.major != t.id && ci.minor != t.id
  {
    match t
    case Chain(_, below) => BelongsMembers(ci, below, orient, writes, leaves);
    case Node(_, left, right) =>
      if Belongs(ci, left, orient, writes, leaves) {
        BelongsMembers(ci, left, orient, writes, leaves);
      } else if Belongs(ci, right, orient, writes, leaves) {
        BelongsMembers(ci, right, orient, writes, leaves);
      }
  }

  /** A cut speaks of the tree's own nodes only. */
  lemma {:induction false} CutFrame<T>(t: Tree, orient: Orientation, writes: WriteTable, leaves: LiveMap<T>, m: LiveMap<T>,
                                       m': LiveMap<T>)
    requires LeafIds(t) <= leaves.Keys && Cut(t, orient, writes, leaves, m)
    requires forall k :: k in Ids(t) ==> (k in m <==> k in m')
    requires forall k :: k in Ids(t) && k in m ==> m'[k] == m[k]
    ensures Cut(t, orient, writes, leaves, m')
  {
    match t
    case Leaf(_) =>
    case Chain(_, below) => CutFrame(below, orient, writes, leaves, m, m');
    case Node(id, left, right) =>
      if id !in m {
        CutFrame(left, orient, writes, leaves, m, m');
        CutFrame(right, orient, writes, leaves, m, m');
      }
  }

  /** Collapsing an item touches its own tree's nodes only. */
  lemma CollapseFrame<T>(ci: ConflictItem, writes: WriteTable, m: LiveMap<T>, others: set<int>)
    requires Enabled(ci, m)
    requires ci.major !in others && ci.minor !in others && ci.parent !in others
    ensures forall k :: k in others ==> (k in m <==> k in Collapse(ci, writes, m))
    ensures forall k :: k in others && k in m ==> Collapse(ci, writes, m)[k] == m[k]
  {
  }

  lemma CutStepHere<T>(ci: ConflictItem, t: Tree, orient: Orientation, writes: WriteTable, leaves: LiveMap<T>, m: LiveMap<T>)
    requires t.Node? && LeafIds(t) <= leaves.Keys && Distinct(t)
    requires ci.parent == t.id && BelongsHere(ci, t, orient, writes, leaves)
    requires t.id !in m && Cut(t.left, orient, writes, leaves, m) && Cut(t.right, orient, writes, leaves, m)
    requires Enabled(ci, m)
    ensures Cut(t, orient, writes, leaves, Collapse(ci, writes, m))
  {
    var r := Collapse(ci, writes, m);
    var l := TreeMerge(t.left, orient, writes, leaves);
    var h := TreeMerge(t.right, orient, writes, leaves);
    CutAtKey(t.left, orient, writes, leaves, m);
    CutAtKey(t.right, orient, writes, leaves, m);
    assert m[Key(t.left)] == l && m[Key(t.right)] == h;
    assert r[t.id] == Merged(ci, writes, m);
    assert Merged(ci, writes, m) == TreeMerge(t, orient, writes, leaves);
    forall k | k in Ids(t) && k != t.id
      ensures k !in r
    {
      assert k in Ids(t.left) || k in Ids(t.right);
    }
  }

  /** A key that is present holds the merge of its tree, and nothing else of the tree is present. */
  lemma {:induction false} CutAtKey<T>(t: Tree, orient: Orientation, writes: WriteTable, leaves: LiveMap<T>, m: LiveMap<T>)
    requires LeafIds(t) <= leaves.Keys && Cut(t, orient, writes, leaves, m) && Key(t) in m
    ensures m[Key(t)] == TreeMerge(t, orient, writes, leaves)
    ensures forall k :: k in Ids(t) && k in m ==> k == Key(t)
  {
    match t
    case Leaf(_) =>
    case Chain(_, below) => CutAtKey(below, orient, writes, leaves, m);
    case Node(_, _, _) =>
  }

  lemma CutStepBelow<T>(ci: ConflictItem, t: Tree, below: Tree, aside: Tree, orient: Orientation, writes: WriteTable,
                        leaves: LiveMap<T>, m: LiveMap<T>)
    requires t.Node? && LeafIds(t) <= leaves.Keys && Distinct(t)
    requires (below == t.left && aside == t.right) || (below == t.right && aside == t.left)
    requires Belongs(ci, below, orient, writes, leaves) && Enabled(ci, m)
    requires t.id !in m && Cut(aside, orient, writes, leaves, m)
    requires Cut(below, orient, writes, leaves, Collapse(ci, writes, m))
    ensures Cut(t, orient, writes, leaves, Collapse(ci, writes, m))
  {
    BelongsMembers(ci, below, orient, writes, leaves);
    CollapseFrame(ci, writes, m, Ids(aside) + {t.id});
    CutFrame(aside, orient, writes, leaves, m, Collapse(ci, writes, m));
  }

  /** Collapsing one of the tree's own items leaves a cut, and no merge is lost. */
  lemma {:induction false} CutStep<T>(ci: ConflictItem, t: Tree, orient: Orientation, writes: WriteTable,
                                      leaves: LiveMap<T>, m: LiveMap<T>)
    requires LeafIds(t) <= leaves.Keys && Distinct(t) && Belongs(ci, t, orient, writes, leaves)
    requires Cut(t, orient, writes, leaves, m) && Enabled(ci, m)
    ensures Cut(t, orient, writes, leaves, Collapse(ci, writes, m))
    ensures ci.parent !in m
  {
    BelongsMembers(ci, t, orient, writes, leaves);
    match t
    case Chain(id, below) =>
      CutStep(ci, below, orient, writes, leaves, m);
      BelongsMembers(ci, below, orient, writes, leaves);
      CollapseFrame(ci, writes, m, {id});
    case Node(_, left, right) =>
      if Belongs(ci, left, orient, writes, leaves) {
        CutStep(ci, left, orient, writes, leaves, m);
        CutStepBelow(ci, t, left, right, orient, writes, leaves, m);
      } else if Belongs(ci, right, orient, writes, leaves) {
        CutStep(ci, right, orient, writes, leaves, m);
        CutStepBelow(ci, t, right, left, orient, writes, leaves, m);
      } else {
        CutStepHere(ci, t, orient, writes, leaves, m);
      }
  }

  /** With no item left to collapse, a covered tree has been merged into its key. */
  lemma {:induction false} CutEnd<T>(t: Tree, items: seq<ConflictItem>, orient: Orientation, writes: WriteTable,
                                     leaves: LiveMap<T>, m: LiveMap<T>)
    requires LeafIds(t) <= leaves.Keys && Cut(t, orient, writes, leaves, m) && Covered(t, items)
    requires forall ci :: ci in items ==> !Enabled(ci, m)
    ensures Key(t) in m && m[Key(t)] == TreeMerge(t, orient, writes, leaves)
  {
    match t
    case Leaf(_) =>
    case Chain(_, below) => CutEnd(below, items, orient, writes, leaves, m);
    case Node(id, left, right) =>
      if id !in m {
        CutEnd(left, items, orient, writes, leaves, m);
        CutEnd(right, items, orient, writes, leaves, m);
        assert false;
      }
  }

  /** At the start the leaves are present and no other node is. */
  lemma {:induction false} CutStart<T>(t: Tree, orient: Orientation, writes: WriteTable, leaves: LiveMap<T>)
    requires LeafIds(t) <= leaves.Keys && Distinct(t)
    requires forall k :: k in Ids(t) && k in leaves ==> k in LeafIds(t)
    ensures Cut(t, orient, writes, leaves, leaves)
  {
    match t
    case Leaf(_) =>
    case Chain(id, below) =>
      assert id !in LeafIds(t);
      CutStart(below, orient, writes, leaves);
    case Node(id, left, right) =>
      assert id !in LeafIds(t);
      CutStart(left, orient, writes, leaves);
      CutStart(right, orient, writes, leaves);
  }

  // ----- Forests -----

  ghost predicate ForestCut<T>(ts: seq<Tree>, orient: Orientation, writes: WriteTable, leaves: LiveMap<T>, m: LiveMap<T>) {
    (forall i :: 0 <= i < |ts| ==> LeafIds(ts[i]) <= leaves.Keys && Cut(ts[i], orient, writes, leaves, m))
    && (forall k :: k in m ==> exists i :: 0 <= i < |ts| && k in Ids(ts[i]))
  }

  lemma ForestStep<T>(ci: ConflictItem, ts: seq<Tree>, orient: Orientation, writes: WriteTable, leaves: LiveMap<T>, m: LiveMap<T>)
    requires DistinctForest(ts) && HasHome(ci, ts, orient, writes, leaves)
    requires ForestCut(ts, orient, writes, leaves, m)
    ensures ForestCut(ts, orient, writes, leaves, Step(ci, writes, m))
    ensures !Refused(ci, m)
  {
    if Enabled(ci, m) {
      var i :| 0 <= i < |ts| && BelongsTo(ci, ts[i], orient, writes, leaves);
      var r := Collapse(ci, writes, m);
      CutStep(ci, ts[i], orient, writes, leaves, m);
      BelongsMembers(ci, ts[i], orient, writes, leaves);
      forall j | 0 <= j < |ts|
        ensures Cut(ts[j], orient, writes, leaves, r)
      {
        if j != i {
          assert Ids(ts[i]) !! Ids(ts[j]);
          CutFrame(ts[j], orient, writes, leaves, m, r);
        }
      }
    }
  }

  lemma {:induction false} ForestPass<T>(todo: seq<ConflictItem>, ts: seq<Tree>, orient: Orientation, writes: WriteTable,
                                         leaves: LiveMap<T>, m: LiveMap<T>)
    requires DistinctForest(ts)
    requires forall i :: 0 <= i < |todo| ==> HasHome(todo[i], ts, orient, writes, leaves)
    requires ForestCut(ts, orient, writes, leaves, m)
    ensures ForestCut(ts, orient, writes, leaves, Pass(todo, writes, m))
    ensures PassLosses(todo, writes, m) == 0
    decreases |todo|
  {
    if todo == [] {
    } else {
      ForestStep(todo[0], ts, orient, writes, leaves, m);
      ForestPass(todo[1..], ts, orient, writes, leaves, Step(todo[0], writes, m));
    }
  }

  lemma {:induction false} ForestLoop<T>(items: seq<ConflictItem>, ts: seq<Tree>, orient: Orientation, writes: WriteTable,
                                         leaves: LiveMap<T>, m: LiveMap<T>)
    requires Irreflexive(items) && DistinctForest(ts) && ForestList(items, ts, orient, writes, leaves)
    requires ForestCut(ts, orient, writes, leaves, m)
    ensures ForestCut(ts, orient, writes, leaves, Loop(items, writes, m))
    ensures Losses(items, writes, m) == 0
    decreases |m|
  {
    ForestPass(items, ts, orient, writes, leaves, m);
    var next := Pass(items, writes, m);
    if |next| >= |m| {
    } else {
      ForestLoop(items, ts, orient, writes, leaves, next);
    }
  }

  function KeysOf(ts: seq<Tree>): set<int> {
    set i | 0 <= i < |ts| :: Key(ts[i])
  }

  /** The map the recursive merge of every tree would leave. */
  function ForestMerge<T>(ts: seq<Tree>, orient: Orientation, writes: WriteTable, leaves: LiveMap<T>): LiveMap<T>
    requires forall i :: 0 <= i < |ts| ==> LeafIds(ts[i]) <= leaves.Keys
  {
    if ts == [] then map[]
    else ForestMerge(ts[1..], orient, writes, leaves)[Key(ts[0]) := TreeMerge(ts[0], orient, writes, leaves)]
  }

  lemma {:induction false} ForestMergeAt<T>(ts: seq<Tree>, orient: Orientation, writes: WriteTable, leaves: LiveMap<T>)
    requires forall i :: 0 <= i < |ts| ==> LeafIds(ts[i]) <= leaves.Keys
    requires DistinctForest(ts)
    ensures ForestMerge(ts, orient, writes, leaves).Keys == KeysOf(ts)
    ensures forall i :: 0 <= i < |ts| ==> Key(ts[i]) in ForestMerge(ts, orient, writes, leaves)
    ensures forall i :: 0 <= i < |ts| ==>
              ForestMerge(ts, orient, writes, leaves)[Key(ts[i])] == TreeMerge(ts[i], orient, writes, leaves)
  {
    hide *;
    if ts == [] {
      NoTrees(orient, writes, leaves);
    } else {
      var rest := ts[1..];
      RestDistinct(ts);
      KeysOfCons(ts);
      ForestMergeAt(rest, orient, writes, leaves);
      ForestMergeCons(ts, orient, writes, leaves);
      forall i | 0 <= i < |ts|
        ensures Key(ts[i]) in ForestMerge(ts, orient, writes, leaves)
        ensures ForestMerge(ts, orient, writes, leaves)[Key(ts[i])] == TreeMerge(ts[i], orient, writes, leaves)
      {
        if i > 0 {
          assert rest[i - 1] == ts[i];
        }
      }
    }
  }

  lemma NoTrees<T>(orient: Orientation, writes: WriteTable, leaves: LiveMap<T>)
    ensures ForestMerge([], orient, writes, leaves).Keys == KeysOf([])
  {
  }

  lemma ForestMergeCons<T>(ts: seq<Tree>, orient: Orientation, writes: WriteTable, leaves: LiveMap<T>)
    requires ts != [] && forall i :: 0 <= i < |ts| ==> LeafIds(ts[i]) <= leaves.Keys
    ensures ForestMerge(ts, orient, writes, leaves)
            == ForestMerge(ts[1..], orient, writes, leaves)[Key(ts[0]) := TreeMerge(ts[0], orient, writes, leaves)]
  {
    hide TreeMerge, Key;
  }

  lemma RestDistinct(ts: seq<Tree>)
    requires ts != [] && DistinctForest(ts)
    ensures DistinctForest(ts[1..])
    ensures forall i :: 1 <= i < |ts| ==> Key(ts[i]) != Key(ts[0])
  {
    assert forall j :: 0 <= j < |ts[1..]| ==> ts[1..][j] == ts[j + 1];
    hide Key;
    forall i | 1 <= i < |ts|
      ensures Key(ts[i]) != Key(ts[0])
    {
      assert Ids(ts[0]) !! Ids(ts[i]);
    }
  }

  lemma KeysOfCons(ts: seq<Tree>)
    requires ts != []
    ensures KeysOf(ts) == KeysOf(ts[1..]) + {Key(ts[0])}
  {
    assert forall i :: 1 <= i < |ts| ==> ts[i] == ts[1..][i - 1];
  }

  lemma ForestListIrreflexive<T>(items: seq<ConflictItem>, ts: seq<Tree>, orient: Orientation, writes: WriteTable,
                                 leaves: LiveMap<T>)
    requires DistinctForest(ts) && ForestList(items, ts, orient, writes, leaves)
    ensures Irreflexive(items)
  {
    forall i | 0 <= i < |items|
      ensures items[i].major != items[i].minor
    {
      var ci := items[i];
      assert HasHome(ci, ts, orient, writes, leaves);
      var j :| 0 <= j < |ts| && BelongsTo(ci, ts[j], orient, writes, leaves);
      BelongsMembers(ci, ts[j], orient, writes, leaves);
    }
  }

  lemma ForestStart<T>(ts: seq<Tree>, orient: Orientation, writes: WriteTable, leaves: LiveMap<T>)
    requires DistinctForest(ts) && leaves.Keys == ForestLeafIds(ts)
    ensures ForestCut(ts, orient, writes, leaves, leaves)
  {
    forall i | 0 <= i < |ts|
      ensures LeafIds(ts[i]) <= leaves.Keys && Cut(ts[i], orient, writes, leaves, leaves)
    {
      forall k | k in LeafIds(ts[i])
        ensures k in leaves
      {
        assert k in ForestLeafIds(ts);
      }
      forall k | k in Ids(ts[i]) && k in leaves
        ensures k in LeafIds(ts[i])
      {
        var j :| 0 <= j < |ts| && k in LeafIds(ts[j]);
      }
      CutStart(ts[i], orient, writes, leaves);
    }
    forall k | k in leaves
      ensures exists i :: 0 <= i < |ts| && k in Ids(ts[i])
    {
      var j :| 0 <= j < |ts| && k in LeafIds(ts[j]);
      assert k in Ids(ts[j]);
    }
  }

  /** The rewriting loop computes the recursive merge of every tree of the
      forest, loses nothing, and leaves their keys and nothing else. */
  lemma LoopIsForestMerge<T>(items: seq<ConflictItem>, ts: seq<Tree>, orient: Orientation, writes: WriteTable, leaves: LiveMap<T>)
    requires DistinctForest(ts) && ForestList(items, ts, orient, writes, leaves)
    ensures Irreflexive(items)
    ensures forall i :: 0 <= i < |ts| ==> LeafIds(ts[i]) <= leaves.Keys
    ensures Loop(items, writes, leaves) == ForestMerge(ts, orient, writes, leaves)
    ensures Losses(items, writes, leaves) == 0
  {
    ForestListIrreflexive(items, ts, orient, writes, leaves);
    ForestStart(ts, orient, writes, leaves);
    ForestLoop(items, ts, orient, writes, leaves, leaves);
    var r := Loop(items, writes, leaves);
    LoopIsFixpoint(items, writes, leaves);
    ForestEnd(items, ts, orient, writes, leaves, r);
  }

  lemma ForestEnd<T>(items: seq<ConflictItem>, ts: seq<Tree>, orient: Orientation, writes: WriteTable, leaves: LiveMap<T>,
                     r: LiveMap<T>)
    requires DistinctForest(ts) && ForestCut(ts, orient, writes, leaves, r)
    requires forall i :: 0 <= i < |ts| ==> Covered(ts[i], items)
    requires forall i :: 0 <= i < |items| ==> !Enabled(items[i], r)
    ensures r == ForestMerge(ts, orient, writes, leaves)
  {
    hide *;
    CutLeaves(ts, orient, writes, leaves, r);
    AllMerged(items, ts, orient, writes, leaves, r);
    OnlyKeys(ts, orient, writes, leaves, r);
    ForestMergeAt(ts, orient, writes, leaves);
    var f := ForestMerge(ts, orient, writes, leaves);
    forall k | k in KeysOf(ts)
      ensures k in r && k in f && f[k] == r[k]
    {
      var i := KeyIndex(ts, k);
    }
  }

  lemma CutLeaves<T>(ts: seq<Tree>, orient: Orientation, writes: WriteTable, leaves: LiveMap<T>, r: LiveMap<T>)
    requires ForestCut(ts, orient, writes, leaves, r)
    ensures forall i :: 0 <= i < |ts| ==> LeafIds(ts[i]) <= leaves.Keys
  {
  }

  lemma KeyIndex(ts: seq<Tree>, k: int) returns (i: nat)
    requires k in KeysOf(ts)
    ensures i < |ts| && Key(ts[i]) == k
  {
    i :| 0 <= i < |ts| && Key(ts[i]) == k;
  }

  lemma AllMerged<T>(items: seq<ConflictItem>, ts: seq<Tree>, orient: Orientation, writes: WriteTable, leaves: LiveMap<T>,
                     r: LiveMap<T>)
    requires ForestCut(ts, orient, writes, leaves, r)
    requires forall i :: 0 <= i < |ts| ==> Covered(ts[i], items)
    requires forall i :: 0 <= i < |items| ==> !Enabled(items[i], r)
    ensures forall i :: 0 <= i < |ts| ==> Key(ts[i]) in r && r[Key(ts[i])] == TreeMerge(ts[i], orient, writes, leaves)
  {
    forall i | 0 <= i < |ts|
      ensures Key(ts[i]) in r && r[Key(ts[i])] == TreeMerge(ts[i], orient, writes, leaves)
    {
      CutEnd(ts[i], items, orient, writes, leaves, r);
    }
  }

  lemma OnlyKeys<T>(ts: seq<Tree>, orient: Orientation, writes: WriteTable, leaves: LiveMap<T>, r: LiveMap<T>)
    requires ForestCut(ts, orient, writes, leaves, r)
    requires forall i :: 0 <= i < |ts| ==> Key(ts[i]) in r
    ensures r.Keys == KeysOf(ts)
  {
    hide Cut, TreeMerge, Ids, LeafIds, Key;
    forall k | k in r
      ensures k in KeysOf(ts)
    {
      var i :| 0 <= i < |ts| && k in Ids(ts[i]);
      CutAtKey(ts[i], orient, writes, leaves, r);
    }
  }

  /** Confluence: two conflict lists made for the same forest give the same
      merged packet. In particular the order of a list, repetitions in it,
      and listing an independent pair in both directions do not matter. */
  lemma Confluence<T>(items: seq<ConflictItem>, items': seq<ConflictItem>, ts: seq<Tree>, orient: Orientation,
                      writes: WriteTable, leaves: LiveMap<T>)
    requires leaves != map[] && DistinctForest(ts)
    requires ForestList(items, ts, orient, writes, leaves) && ForestList(items', ts, orient, writes, leaves)
    ensures Irreflexive(items) && Irreflexive(items')
    ensures MergeAll(items, writes, leaves) == MergeAll(items', writes, leaves)
  {
    LoopIsForestMerge(items, ts, orient, writes, leaves);
    LoopIsForestMerge(items', ts, orient, writes, leaves);
  }

  /** A permutation of a list is made for the same forest. */
  lemma PermutedForestList<T>(items: seq<ConflictItem>, items': seq<ConflictItem>, ts: seq<Tree>, orient: Orientation,
                              writes: WriteTable, leaves: LiveMap<T>)
    requires ForestList(items, ts, orient, writes, leaves)
    requires multiset(items) == multiset(items')
    ensures ForestList(items', ts, orient, writes, leaves)
  {
    assert forall ci :: ci in items <==> ci in multiset(items);
    assert forall ci :: ci in items' <==> ci in multiset(items');
    forall i | 0 <= i < |ts|
      ensures Covered(ts[i], items')
    {
      CoveredBySame(ts[i], items, items');
    }
  }

  lemma {:induction false} CoveredBySame(t: Tree, items: seq<ConflictItem>, items': seq<ConflictItem>)
    requires Covered(t, items) && forall ci :: ci in items ==> ci in items'
    ensures Covered(t, items')
  {
    match t
    case Leaf(_) =>
    case Chain(_, below) => CoveredBySame(below, items, items');
    case Node(_, left, right) =>
      CoveredBySame(left, items, items');
      CoveredBySame(right, items, items');
  }
}

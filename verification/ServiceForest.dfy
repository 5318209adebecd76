/** A service run in parallel and merged against the same functions one after the other: they sit on
    the nodes of a forest, every branch works on its own copy, and the merger puts the copies together. */
module ServiceForest {
  import opened Packets
  import opened MergeSpec
  import opened MergeForest
  import opened NetworkFunctions
  import Conservation

  /** The function at each node and its row of the action table. */
  datatype Service = Service(run: (int, Wire) -> Wire, row: int -> Profile)

  /** The tree's functions one after the other: node, left branch, right branch. */
  function RunTree(t: Tree, service: Service, p: Wire): Wire {
    match t
    case Leaf(id) => service.run(id, p)
    case Chain(id, below) => RunTree(below, service, service.run(id, p))
    case Node(id, left, right) => RunTree(right, service, RunTree(left, service, service.run(id, p)))
  }

  function NodeBehaviour(id: int, service: Service): Behaviour {
    p => service.run(id, p)
  }

  function TreeBehaviour(t: Tree, service: Service): Behaviour {
    p => RunTree(t, service, p)
  }

  function TreeProfile(t: Tree, row: int -> Profile): Profile {
    match t
    case Leaf(id) => row(id)
    case Chain(id, below) => Compose(row(id), TreeProfile(below, row))
    case Node(id, left, right) => Compose(row(id), Compose(TreeProfile(left, row), TreeProfile(right, row)))
  }

  function RunForest(ts: seq<Tree>, service: Service, p: Wire): Wire {
    if ts == [] then p else RunForest(ts[1..], service, RunTree(ts[0], service, p))
  }

  function ForestBehaviour(ts: seq<Tree>, service: Service): Behaviour {
    p => RunForest(ts, service, p)
  }

  function ForestProfile(ts: seq<Tree>, row: int -> Profile): Profile {
    if ts == [] then Profile({}, {}, false)
    else Compose(TreeProfile(ts[0], row), ForestProfile(ts[1..], row))
  }

  /** The copies that reach the merger: each leaf's packet has been through
      the functions from the root down to the leaf, and counts as written in
      the fields of the leaf's own function. */
  function LeafPackets(t: Tree, service: Service, p: Wire): (r: LiveMap<Bytes>)
    ensures r.Keys == LeafIds(t)
  {
    match t
    case Leaf(id) => map[id := Info(service.run(id, p), service.row(id).writeSet)]
    case Chain(id, below) => LeafPackets(below, service, service.run(id, p))
    case Node(id, left, right) =>
      LeafPackets(left, service, service.run(id, p)) + LeafPackets(right, service, service.run(id, p))
  }

  /** Every function keeps to its row, and the merger's table has the same write sets. */
  ghost predicate Faithful(t: Tree, service: Service, writes: WriteTable) {
    forall id {:trigger FaithfulAt(id, service, writes)} :: id in Ids(t) ==> FaithfulAt(id, service, writes)
  }

  ghost predicate FaithfulAt(id: int, service: Service, writes: WriteTable) {
    WellProfiled(service.row(id)) && Respects(NodeBehaviour(id, service), service.row(id))
    && id in writes && writes[id] == service.row(id).writeSet
  }

  /** Every function makes real packets of real packets. */
  ghost predicate MakesPackets(service: Service) {
    forall id, p {:trigger service.run(id, p)} :: WellFormed(p) ==> WellFormed(service.run(id, p))
  }

  /** At every internal node the left branch writes nothing the right branch reads. */
  ghost predicate Independent(t: Tree, row: int -> Profile) {
    match t
    case Leaf(_) => true
    case Chain(_, below) => Independent(below, row)
    case Node(_, left, right) =>
      TreeProfile(left, row).writeSet !! TreeProfile(right, row).readSet && Independent(left, row) && Independent(right, row)
  }

  ghost predicate IndependentForest(ts: seq<Tree>, row: int -> Profile) {
    forall i, j :: 0 <= i < j < |ts| ==> TreeProfile(ts[i], row).writeSet !! TreeProfile(ts[j], row).readSet
  }

  /** The writes a tree's merged packet counts as its own. Those of a chain's
      links are not among them: no item names a link as parent. */
  function Counted(t: Tree, row: int -> Profile): set<Field> {
    match t
    case Leaf(id) => row(id).writeSet
    case Chain(_, below) => Counted(below, row)
    case Node(id, left, right) => Counted(left, row) + Counted(right, row) + row(id).writeSet
  }

  /** The fields that the tree writes and its merged packet does not count. */
  function Hidden(t: Tree, row: int -> Profile): set<Field> {
    TreeProfile(t, row).writeSet - Counted(t, row)
  }

  /** At every node the minor branch hides nothing. */
  ghost predicate Kept(t: Tree, orient: Orientation, row: int -> Profile) {
    match t
    case Leaf(_) => true
    case Chain(_, below) => Kept(below, orient, row)
    case Node(id, left, right) =>
      Hidden(if orient(id) then right else left, row) == {} && Kept(left, orient, row) && Kept(right, orient, row)
  }

  lemma {:induction false} CountedIsWritten(t: Tree, row: int -> Profile)
    ensures Counted(t, row) <= TreeProfile(t, row).writeSet
  {
    match t
    case Leaf(_) =>
    case Chain(_, below) => CountedIsWritten(below, row);
    case Node(_, left, right) =>
      CountedIsWritten(left, row);
      CountedIsWritten(right, row);
  }

  /** The leaves in the map carry the copies that p gives rise to. */
  ghost predicate Carries(leaves: LiveMap<Bytes>, t: Tree, service: Service, p: Wire) {
    LeafIds(t) <= leaves.Keys && forall k :: k in LeafIds(t) ==> leaves[k] == LeafPackets(t, service, p)[k]
  }

  ghost predicate SomeNull(leaves: LiveMap<Bytes>, ids: set<int>)
    requires ids <= leaves.Keys
  {
    exists k :: k in ids && IsNull(leaves[k].fields)
  }

  lemma {:induction false} TreeRespects(t: Tree, service: Service, writes: WriteTable)
    requires Faithful(t, service, writes)
    ensures WellProfiled(TreeProfile(t, service.row)) && Respects(TreeBehaviour(t, service), TreeProfile(t, service.row))
  {
    assert FaithfulAt(t.id, service, writes) by {
      RootIn(t);
    }
    var here := NodeBehaviour(t.id, service);
    match t
    case Leaf(_) => RespectsPointwise(here, TreeBehaviour(t, service), TreeProfile(t, service.row));
    case Chain(id, below) =>
      TreeRespects(below, service, writes);
      var f, s := TreeBehaviour(below, service), TreeProfile(below, service.row);
      ThenRespects(here, service.row(id), f, s);
      RespectsPointwise(Then(here, f), TreeBehaviour(t, service), TreeProfile(t, service.row));
    case Node(id, left, right) =>
      TreeRespects(left, service, writes);
      TreeRespects(right, service, writes);
      var f, g := TreeBehaviour(left, service), TreeBehaviour(right, service);
      var s, u := TreeProfile(left, service.row), TreeProfile(right, service.row);
      ThenRespects(f, s, g, u);
      ThenRespects(here, service.row(id), Then(f, g), Compose(s, u));
      RespectsPointwise(Then(here, Then(f, g)), TreeBehaviour(t, service), TreeProfile(t, service.row));
  }

  lemma CarriesBranches(t: Tree, service: Service, p: Wire, leaves: LiveMap<Bytes>)
    requires t.Node? && Distinct(t) && Carries(leaves, t, service, p)
    ensures Carries(leaves, t.left, service, service.run(t.id, p))
    ensures Carries(leaves, t.right, service, service.run(t.id, p))
  {
    var q := service.run(t.id, p);
    assert LeafIds(t.left) !! LeafIds(t.right);
    forall k | k in LeafIds(t.left)
      ensures leaves[k] == LeafPackets(t.left, service, q)[k]
    {
      assert k !in LeafPackets(t.right, service, q);
    }
  }

  /** At a node with two branches, on the packet q its function hands on: the
      run of both is null exactly if one of theirs is, and otherwise what the
      two merge to, if the minor one counts all it has written. */
  lemma BranchesMerge(t: Tree, service: Service, writes: WriteTable, q: Wire)
    requires t.Node? && Faithful(t, service, writes) && Independent(t, service.row)
    ensures var l, r := RunTree(t.left, service, q), RunTree(t.right, service, q);
      var both := RunTree(t.right, service, l);
      var cl, cr := Counted(t.left, service.row), Counted(t.right, service.row);
      && (IsNull(both) <==> IsNull(l) || IsNull(r))
      && (!IsNull(both) && Hidden(t.right, service.row) == {} ==> Overlay(Info(l, cl), Info(r, cr)).fields == both)
      && (!IsNull(both) && Hidden(t.left, service.row) == {} ==> Overlay(Info(r, cr), Info(l, cl)).fields == both)
  {
    TreeRespects(t.left, service, writes);
    TreeRespects(t.right, service, writes);
    var f, g := TreeBehaviour(t.left, service), TreeBehaviour(t.right, service);
    var s, u := TreeProfile(t.left, service.row), TreeProfile(t.right, service.row);
    ParallelEqualsSequential(f, s, g, u, q);
    CountedIsWritten(t.left, service.row);
    CountedIsWritten(t.right, service.row);
    var l, r := RunTree(t.left, service, q), RunTree(t.right, service, q);
    assert f(q) == l && g(q) == r && g(f(q)) == RunTree(t.right, service, l);
    var cl, cr := Counted(t.left, service.row), Counted(t.right, service.row);
    if Hidden(t.right, service.row) == {} {
      CountingLess(Info(l, s.writeSet), Info(r, u.writeSet), cl, cr);
    }
    if Hidden(t.left, service.row) == {} {
      CountingLess(Info(r, u.writeSet), Info(l, s.writeSet), cr, cl);
    }
  }

  /** A major packet may count less than it has written, if the minor one has
      written none of that. */
  lemma CountingLess<T>(major: Info<T>, minor: Info<T>, majorCounted: set<Field>, minorCounted: set<Field>)
    requires majorCounted <= major.written && minorCounted <= minor.written && minor.written - minorCounted == {}
    requires major.written !! minor.written
    ensures Overlay(Info(major.fields, majorCounted), Info(minor.fields, minorCounted)).fields == Overlay(major, minor).fields
  {
    var a, b := Overlay(Info(major.fields, majorCounted), Info(minor.fields, minorCounted)), Overlay(major, minor);
    forall f: Field
      ensures a.fields.Get(f) == b.fields.Get(f)
    {
      assert f !in minor.written - minorCounted;
      assert a.fields.Get(f) == Choose(f, Info(major.fields, majorCounted), Info(minor.fields, minorCounted));
      assert b.fields.Get(f) == Choose(f, major, minor);
    }
    AgreeEverywhere(a.fields, b.fields);
  }

  lemma WritesAt(t: Tree, service: Service, writes: WriteTable)
    requires Faithful(t, service, writes)
    ensures t.id in writes && writes[t.id] == service.row(t.id).writeSet
  {
    RootIn(t);
    assert FaithfulAt(t.id, service, writes);
  }

  lemma NullBranches(t: Tree, leaves: LiveMap<Bytes>)
    requires t.Node? && LeafIds(t) <= leaves.Keys
    ensures SomeNull(leaves, LeafIds(t)) <==> SomeNull(leaves, LeafIds(t.left)) || SomeNull(leaves, LeafIds(t.right))
  {
    if SomeNull(leaves, LeafIds(t)) {
      var k :| k in LeafIds(t) && IsNull(leaves[k].fields);
      assert k in LeafIds(t.left) || k in LeafIds(t.right);
    }
  }

  /** Within one tree: some copy is dropped exactly when the sequential run
      drops the packet; otherwise the recursive merge has the tree's counted
      writes, and is the packet of the sequential run if no minor branch
      hides a write. */
  lemma {:induction false} TreeMergeIsSequential(t: Tree, service: Service, writes: WriteTable, orient: Orientation,
                                                 p: Wire, leaves: LiveMap<Bytes>)
    requires Distinct(t) && Faithful(t, service, writes) && Independent(t, service.row)
    requires Carries(leaves, t, service, p)
    ensures SomeNull(leaves, LeafIds(t)) <==> IsNull(RunTree(t, service, p))
    ensures TreeMerge(t, orient, writes, leaves).written == Counted(t, service.row)
    ensures !IsNull(RunTree(t, service, p)) && Kept(t, orient, service.row) ==>
              TreeMerge(t, orient, writes, leaves).fields == RunTree(t, service, p)
  {
    match t
    case Leaf(id) => assert LeafIds(t) == {id};
    case Chain(id, below) => TreeMergeIsSequential(below, service, writes, orient, service.run(id, p), leaves);
    case Node(id, left, right) =>
      var q := service.run(id, p);
      BranchesHave(t, service, writes, p, leaves);
      hide *;
      WritesAt(t, service, writes);
      TreeMergeIsSequential(left, service, writes, orient, q, leaves);
      TreeMergeIsSequential(right, service, writes, orient, q, leaves);
      BranchesMerge(t, service, writes, q);
      NullBranches(t, leaves);
      NodeMerges(t, service, writes, orient, p, leaves);
  }

  lemma BranchesHave(t: Tree, service: Service, writes: WriteTable, p: Wire, leaves: LiveMap<Bytes>)
    requires t.Node? && Distinct(t) && Faithful(t, service, writes) && Independent(t, service.row) && Carries(leaves, t, service, p)
    ensures LeafIds(t) <= leaves.Keys && LeafIds(t.left) <= leaves.Keys && LeafIds(t.right) <= leaves.Keys
    ensures Distinct(t.left) && Faithful(t.left, service, writes) && Independent(t.left, service.row)
    ensures Distinct(t.right) && Faithful(t.right, service, writes) && Independent(t.right, service.row)
    ensures Carries(leaves, t.left, service, service.run(t.id, p)) && Carries(leaves, t.right, service, service.run(t.id, p))
  {
    hide FaithfulAt;
    CarriesBranches(t, service, p, leaves);
  }

  /** The step at a node, from what holds of its branches. */
  lemma NodeMerges(t: Tree, service: Service, writes: WriteTable, orient: Orientation, p: Wire, leaves: LiveMap<Bytes>)
    requires t.Node? && LeafIds(t) <= leaves.Keys && LeafIds(t.left) <= leaves.Keys && LeafIds(t.right) <= leaves.Keys
    requires t.id in writes && writes[t.id] == service.row(t.id).writeSet
    requires var q := service.run(t.id, p);
      var l, r := RunTree(t.left, service, q), RunTree(t.right, service, q);
      var ml, mr := TreeMerge(t.left, orient, writes, leaves), TreeMerge(t.right, orient, writes, leaves);
      var both := RunTree(t.right, service, l);
      && ml.written == Counted(t.left, service.row) && mr.written == Counted(t.right, service.row)
      && (SomeNull(leaves, LeafIds(t)) <==> IsNull(l) || IsNull(r)) && (IsNull(both) <==> IsNull(l) || IsNull(r))
      && (!IsNull(l) && Kept(t.left, orient, service.row) ==> ml.fields == l)
      && (!IsNull(r) && Kept(t.right, orient, service.row) ==> mr.fields == r)
      && (!IsNull(both) && Hidden(t.right, service.row) == {} ==> Overlay(Info(l, ml.written), Info(r, mr.written)).fields == both)
      && (!IsNull(both) && Hidden(t.left, service.row) == {} ==> Overlay(Info(r, mr.written), Info(l, ml.written)).fields == both)
    ensures SomeNull(leaves, LeafIds(t)) <==> IsNull(RunTree(t, service, p))
    ensures TreeMerge(t, orient, writes, leaves).written == Counted(t, service.row)
    ensures !IsNull(RunTree(t, service, p)) && Kept(t, orient, service.row) ==>
              TreeMerge(t, orient, writes, leaves).fields == RunTree(t, service, p)
  {
    hide IsNull, SomeNull, LeafIds, Hidden;
  }

  /** At a node none of whose copies is null and neither of whose branches
      hides a write, the two merge to the same packet either way. */
  lemma BranchesCommute(t: Tree, service: Service, writes: WriteTable, orient: Orientation, p: Wire, leaves: LiveMap<Bytes>)
    requires t.Node? && Distinct(t) && Faithful(t, service, writes) && Independent(t, service.row)
    requires Carries(leaves, t, service, p) && !SomeNull(leaves, LeafIds(t))
    requires Kept(t.left, orient, service.row) && Kept(t.right, orient, service.row)
    requires Hidden(t.left, service.row) == {} && Hidden(t.right, service.row) == {}
    ensures Overlay(TreeMerge(t.left, orient, writes, leaves), TreeMerge(t.right, orient, writes, leaves))
            == Overlay(TreeMerge(t.right, orient, writes, leaves), TreeMerge(t.left, orient, writes, leaves))
  {
    hide *;
    var q := service.run(t.id, p);
    BranchesHave(t, service, writes, p, leaves);
    NullBranches(t, leaves);
    TreeMergeIsSequential(t.left, service, writes, orient, q, leaves);
    TreeMergeIsSequential(t.right, service, writes, orient, q, leaves);
    BranchesMerge(t, service, writes, q);
    SameEitherWay(TreeMerge(t.left, orient, writes, leaves), TreeMerge(t.right, orient, writes, leaves));
  }

  lemma SameEitherWay<T>(a: Info<T>, b: Info<T>)
    requires Overlay(Info(a.fields, a.written), Info(b.fields, b.written)).fields == Overlay(Info(b.fields, b.written), Info(a.fields, a.written)).fields
    ensures Overlay(a, b) == Overlay(b, a)
  {
    assert a.written + b.written == b.written + a.written;
  }

  // ----- Conflict lists by the names they mention -----

  /** The item names a node as parent and its branches' keys as members, in either direction. */
  ghost predicate Names(ci: ConflictItem, t: Tree) {
    match t
    case Leaf(_) => false
    case Chain(_, below) => Names(ci, below)
    case Node(id, left, right) =>
      (ci.parent == id && Joins(ci, Key(left), Key(right))) || Names(ci, left) || Names(ci, right)
  }

  ghost predicate NamesOne(ci: ConflictItem, ts: seq<Tree>) {
    exists i :: 0 <= i < |ts| && Names(ci, ts[i])
  }

  /** Every item names a node of the forest, and every node with two branches is named by an item. */
  ghost predicate ListFor(items: seq<ConflictItem>, ts: seq<Tree>) {
    (forall i :: 0 <= i < |items| ==> NamesOne(items[i], ts))
    && (forall i :: 0 <= i < |ts| ==> Covered(ts[i], items))
  }

  /** Wherever an item lets one branch give way to the other, that branch hides nothing. */
  ghost predicate NothingHidden(items: seq<ConflictItem>, t: Tree, row: int -> Profile) {
    match t
    case Leaf(_) => true
    case Chain(_, below) => NothingHidden(items, below, row)
    case Node(id, left, right) =>
      (ConflictItem(Key(left), Key(right), id) in items ==> Hidden(right, row) == {})
      && (ConflictItem(Key(right), Key(left), id) in items ==> Hidden(left, row) == {})
      && NothingHidden(items, left, row) && NothingHidden(items, right, row)
  }

  /** The list has an item in the orientation's direction for every node. */
  ghost predicate Listed(items: seq<ConflictItem>, t: Tree, orient: Orientation) {
    match t
    case Leaf(_) => true
    case Chain(_, below) => Listed(items, below, orient)
    case Node(id, left, right) =>
      (if orient(id) then ConflictItem(Key(left), Key(right), id) else ConflictItem(Key(right), Key(left), id)) in items
      && Listed(items, left, orient) && Listed(items, right, orient)
  }

  /** Is the left branch of the given node listed as major? */
  predicate LeftMajor(items: seq<ConflictItem>, t: Tree, at: int) {
    match t
    case Leaf(_) => true
    case Chain(_, below) => LeftMajor(items, below, at)
    case Node(id, left, right) =>
      if at == id then ConflictItem(Key(left), Key(right), id) in items
      else if at in Ids(left) then LeftMajor(items, left, at)
      else LeftMajor(items, right, at)
  }

  lemma {:induction false} ListedByLeftMajor(items: seq<ConflictItem>, t: Tree, orient: Orientation)
    requires Distinct(t) && Covered(t, items) && forall at :: at in Ids(t) ==> orient(at) == LeftMajor(items, t, at)
    ensures Listed(items, t, orient)
  {
    match t
    case Leaf(_) =>
    case Chain(_, below) => ListedByLeftMajor(items, below, orient);
    case Node(id, left, right) =>
      ListedByLeftMajor(items, left, orient);
      ListedByLeftMajor(items, right, orient);
      var ci :| ci in items && ci.parent == id && Joins(ci, Key(left), Key(right));
      assert ci == ConflictItem(Key(left), Key(right), id) || ci == ConflictItem(Key(right), Key(left), id);
  }

  ghost function OrientationOf(items: seq<ConflictItem>, ts: seq<Tree>): Orientation {
    at => exists i :: 0 <= i < |ts| && at in Ids(ts[i]) && LeftMajor(items, ts[i], at)
  }

  /** A list for a forest lists its own orientation. */
  lemma ListsItsOrientation(items: seq<ConflictItem>, ts: seq<Tree>, i: nat)
    requires DistinctForest(ts) && ListFor(items, ts) && i < |ts|
    ensures Listed(items, ts[i], OrientationOf(items, ts))
  {
    var orient := OrientationOf(items, ts);
    forall at | at in Ids(ts[i])
      ensures orient(at) == LeftMajor(items, ts[i], at)
    {
      assert forall j :: 0 <= j < |ts| && at in Ids(ts[j]) ==> j == i;
    }
    ListedByLeftMajor(items, ts[i], orient);
  }

  lemma {:induction false} ListedIsKept(items: seq<ConflictItem>, t: Tree, orient: Orientation, row: int -> Profile)
    requires Listed(items, t, orient) && NothingHidden(items, t, row)
    ensures Kept(t, orient, row)
  {
    match t
    case Leaf(_) =>
    case Chain(_, below) => ListedIsKept(items, below, orient, row);
    case Node(_, left, right) =>
      ListedIsKept(items, left, orient, row);
      ListedIsKept(items, right, orient, row);
  }

  lemma {:induction false} NamesBelongs(ci: ConflictItem, items: seq<ConflictItem>, t: Tree, service: Service, writes: WriteTable,
                                        orient: Orientation, p: Wire, leaves: LiveMap<Bytes>)
    requires Distinct(t) && Faithful(t, service, writes) && Independent(t, service.row)
    requires Carries(leaves, t, service, p) && !SomeNull(leaves, LeafIds(t))
    requires Names(ci, t) && ci in items && Listed(items, t, orient) && NothingHidden(items, t, service.row)
    ensures Belongs(ci, t, orient, writes, leaves)
  {
    match t
    case Chain(id, below) => NamesBelongs(ci, items, below, service, writes, orient, service.run(id, p), leaves);
    case Node(id, left, right) =>
      CarriesBranches(t, service, p, leaves);
      NullBranches(t, leaves);
      if Names(ci, left) {
        NamesBelongs(ci, items, left, service, writes, orient, service.run(id, p), leaves);
      } else if Names(ci, right) {
        NamesBelongs(ci, items, right, service, writes, orient, service.run(id, p), leaves);
      } else {
        NamesHere(ci, items, t, service, writes, orient, p, leaves);
      }
  }

  lemma NamesHere(ci: ConflictItem, items: seq<ConflictItem>, t: Tree, service: Service, writes: WriteTable,
                  orient: Orientation, p: Wire, leaves: LiveMap<Bytes>)
    requires t.Node? && Distinct(t) && Faithful(t, service, writes) && Independent(t, service.row)
    requires Carries(leaves, t, service, p) && !SomeNull(leaves, LeafIds(t))
    requires ci.parent == t.id && Joins(ci, Key(t.left), Key(t.right))
    requires ci in items && Listed(items, t, orient) && NothingHidden(items, t, service.row)
    ensures BelongsHere(ci, t, orient, writes, leaves)
  {
    assert Key(t.left) in Ids(t.left) && Key(t.right) in Ids(t.right);
    var there, back := ConflictItem(Key(t.left), Key(t.right), t.id), ConflictItem(Key(t.right), Key(t.left), t.id);
    assert ci == there || ci == back;
    if there in items && back in items {
      ListedIsKept(items, t.left, orient, service.row);
      ListedIsKept(items, t.right, orient, service.row);
      BranchesCommute(t, service, writes, orient, p, leaves);
    }
  }

  lemma {:induction false} NamesIrreflexive(ci: ConflictItem, t: Tree)
    requires Distinct(t) && Names(ci, t)
    ensures ci.major != ci.minor && {ci.major, ci.minor, ci.parent} <= Ids(t)
  {
    match t
    case Chain(_, below) => NamesIrreflexive(ci, below);
    case Node(_, left, right) =>
      if Names(ci, left) {
        NamesIrreflexive(ci, left);
      } else if Names(ci, right) {
        NamesIrreflexive(ci, right);
      } else {
        assert Key(left) in Ids(left) && Key(right) in Ids(right);
      }
  }

  lemma ListForIrreflexive(items: seq<ConflictItem>, ts: seq<Tree>)
    requires DistinctForest(ts) && ListFor(items, ts)
    ensures Irreflexive(items)
  {
    forall i | 0 <= i < |items|
      ensures items[i].major != items[i].minor
    {
      assert NamesOne(items[i], ts);
      var j :| 0 <= j < |ts| && Names(items[i], ts[j]);
      NamesIrreflexive(items[i], ts[j]);
    }
  }

  // ----- Forests -----

  function ForestLeafPackets(ts: seq<Tree>, service: Service, p: Wire): (r: LiveMap<Bytes>)
    ensures r.Keys == ForestLeafIds(ts)
  {
    if ts == [] then map[]
    else
      ForestLeafIdsCons(ts);
      LeafPackets(ts[0], service, p) + ForestLeafPackets(ts[1..], service, p)
  }

  lemma ForestLeafIdsCons(ts: seq<Tree>)
    requires ts != []
    ensures ForestLeafIds(ts) == LeafIds(ts[0]) + ForestLeafIds(ts[1..])
  {
    forall k | k in ForestLeafIds(ts)
      ensures k in LeafIds(ts[0]) + ForestLeafIds(ts[1..])
    {
      var i :| 0 <= i < |ts| && k in LeafIds(ts[i]);
      if i > 0 {
        assert ts[1..][i - 1] == ts[i];
      }
    }
    forall k | k in LeafIds(ts[0])
      ensures k in ForestLeafIds(ts)
    {
    }
    forall k | k in ForestLeafIds(ts[1..])
      ensures k in ForestLeafIds(ts)
    {
      var i :| 0 <= i < |ts[1..]| && k in LeafIds(ts[1..][i]);
      assert ts[i + 1] == ts[1..][i];
    }
  }

  ghost predicate FaithfulForest(ts: seq<Tree>, service: Service, writes: WriteTable) {
    forall i :: 0 <= i < |ts| ==> Faithful(ts[i], service, writes) && Independent(ts[i], service.row)
  }

  lemma {:induction false} ForestRespects(ts: seq<Tree>, service: Service, writes: WriteTable)
    requires FaithfulForest(ts, service, writes)
    ensures WellProfiled(ForestProfile(ts, service.row)) && Respects(ForestBehaviour(ts, service), ForestProfile(ts, service.row))
  {
    if ts == [] {
    } else {
      TreeRespects(ts[0], service, writes);
      ForestRespects(ts[1..], service, writes);
      var f, g := TreeBehaviour(ts[0], service), ForestBehaviour(ts[1..], service);
      ThenRespects(f, TreeProfile(ts[0], service.row), g, ForestProfile(ts[1..], service.row));
      RespectsPointwise(Then(f, g), ForestBehaviour(ts, service), ForestProfile(ts, service.row));
    }
  }

  lemma {:induction false} IndependentOfRest(ts: seq<Tree>, service: Service, first: Profile)
    requires forall j :: 0 <= j < |ts| ==> first.writeSet !! TreeProfile(ts[j], service.row).readSet
    ensures first.writeSet !! ForestProfile(ts, service.row).readSet
  {
    if ts == [] {
    } else {
      IndependentOfRest(ts[1..], service, first);
    }
  }

  lemma FirstApart(ts: seq<Tree>)
    requires ts != [] && DistinctForest(ts)
    ensures forall k :: k in ForestLeafIds(ts[1..]) ==> k !in LeafIds(ts[0])
  {
    forall k | k in ForestLeafIds(ts[1..])
      ensures k !in LeafIds(ts[0])
    {
      var j :| 0 <= j < |ts[1..]| && k in LeafIds(ts[1..][j]);
      assert ts[1..][j] == ts[j + 1] && Ids(ts[0]) !! Ids(ts[j + 1]);
    }
  }

  lemma {:induction false} ForestCarries(ts: seq<Tree>, service: Service, p: Wire, i: nat)
    requires DistinctForest(ts) && i < |ts|
    ensures Carries(ForestLeafPackets(ts, service, p), ts[i], service, p)
  {
    if i == 0 {
      FirstCarries(ts, service, p);
    } else {
      assert ts[1..][i - 1] == ts[i];
      RestDistinct(ts);
      ForestCarries(ts[1..], service, p, i - 1);
      RestCarries(ts, service, p, ts[i]);
    }
  }

  lemma FirstCarries(ts: seq<Tree>, service: Service, p: Wire)
    requires ts != [] && DistinctForest(ts)
    ensures Carries(ForestLeafPackets(ts, service, p), ts[0], service, p)
  {
    FirstApart(ts);
    ForestLeafIdsCons(ts);
    hide DistinctForest, LeafPackets, LeafIds, Ids;
  }

  lemma RestCarries(ts: seq<Tree>, service: Service, p: Wire, t: Tree)
    requires ts != [] && Carries(ForestLeafPackets(ts[1..], service, p), t, service, p)
    ensures Carries(ForestLeafPackets(ts, service, p), t, service, p)
  {
    ForestLeafIdsCons(ts);
    hide LeafPackets, LeafIds, Ids;
    assert ForestLeafPackets(ts, service, p) == LeafPackets(ts[0], service, p) + ForestLeafPackets(ts[1..], service, p);
  }

  /** The value of a field after the whole forest, if the trees write
      different fields: that of the tree that writes it, or else the original. */
  function FieldAfter(ts: seq<Tree>, service: Service, p: Wire, f: Field): (v: Bytes)
    ensures f !in ForestProfile(ts, service.row).writeSet ==> v == p.Get(f)
  {
    if ts == [] then p.Get(f)
    else if f in TreeProfile(ts[0], service.row).writeSet then RunTree(ts[0], service, p).Get(f)
    else FieldAfter(ts[1..], service, p, f)
  }

  lemma {:induction false} FieldAfterAt(ts: seq<Tree>, service: Service, p: Wire, f: Field, i: nat)
    requires i < |ts| && f in TreeProfile(ts[i], service.row).writeSet
    requires forall j :: 0 <= j < i ==> f !in TreeProfile(ts[j], service.row).writeSet
    ensures FieldAfter(ts, service, p, f) == RunTree(ts[i], service, p).Get(f)
  {
    if i == 0 {
    } else {
      assert ts[1..][i - 1] == ts[i];
      FieldAfterAt(ts[1..], service, p, f, i - 1);
    }
  }

  /** The sequential run of an independent forest drops the packet exactly
      when some leaf's copy is dropped, and otherwise gives every field the
      value of the one tree that writes it. */
  lemma {:induction false} ForestRun(ts: seq<Tree>, service: Service, writes: WriteTable, p: Wire)
    requires DistinctForest(ts) && FaithfulForest(ts, service, writes) && IndependentForest(ts, service.row)
    ensures ts != [] || !IsNull(p) ==>
              (IsNull(RunForest(ts, service, p)) <==> SomeNull(ForestLeafPackets(ts, service, p), ForestLeafIds(ts)))
    ensures !IsNull(RunForest(ts, service, p)) ==>
              !IsNull(p) && RunForest(ts, service, p).id == p.id
              && forall f: Field :: RunForest(ts, service, p).Get(f) == FieldAfter(ts, service, p, f)
  {
    if ts == [] {
    } else {
      var rest := ts[1..];
      assert forall j :: 0 <= j < |rest| ==> rest[j] == ts[j + 1];
      assert DistinctForest(rest) && FaithfulForest(rest, service, writes) && IndependentForest(rest, service.row);
      FirstAndRest(ts, service, writes, p);
      ForestRun(rest, service, writes, p);
      ForestNullStep(ts, service, writes, p);
      if IsNull(p) {
        TreeRespects(ts[0], service, writes);
        assert IsNull(TreeBehaviour(ts[0], service)(p));
      }
    }
  }

  /** The first tree against the rest of the forest. */
  lemma FirstAndRest(ts: seq<Tree>, service: Service, writes: WriteTable, p: Wire)
    requires ts != [] && FaithfulForest(ts, service, writes) && IndependentForest(ts, service.row)
    ensures var l, r, both := RunTree(ts[0], service, p), RunForest(ts[1..], service, p), RunForest(ts, service, p);
            && (IsNull(both) <==> IsNull(l) || IsNull(r))
            && (!IsNull(both) ==> !IsNull(p) && both.id == p.id)
            && (!IsNull(both) ==> forall x: Field ::
                  both.Get(x) == if x in TreeProfile(ts[0], service.row).writeSet then l.Get(x) else r.Get(x))
  {
    var rest := ts[1..];
    var f, s := TreeBehaviour(ts[0], service), TreeProfile(ts[0], service.row);
    var g, t := ForestBehaviour(rest, service), ForestProfile(rest, service.row);
    assert forall j :: 0 <= j < |rest| ==> rest[j] == ts[j + 1];
    TreeRespects(ts[0], service, writes);
    ForestRespects(rest, service, writes);
    IndependentOfRest(rest, service, s);
    ParallelEqualsSequential(f, s, g, t, p);
    assert RunForest(ts, service, p) == g(f(p));
    if !IsNull(g(f(p))) {
      assert AgreeOutside(p, f(p), s.writeSet) && AgreeOutside(p, g(p), t.writeSet);
      var a, b := Info(f(p), s.writeSet), Info(g(p), t.writeSet);
      assert Overlay(a, b).fields == g(f(p));
      forall x: Field
        ensures g(f(p)).Get(x) == if x in s.writeSet then f(p).Get(x) else g(p).Get(x)
      {
        assert Overlay(a, b).fields.Get(x) == Choose(x, a, b);
      }
    }
  }

  lemma ForestNullStep(ts: seq<Tree>, service: Service, writes: WriteTable, p: Wire)
    requires ts != [] && DistinctForest(ts) && FaithfulForest(ts, service, writes)
    ensures SomeNull(ForestLeafPackets(ts, service, p), ForestLeafIds(ts)) <==>
            IsNull(RunTree(ts[0], service, p)) || SomeNull(ForestLeafPackets(ts[1..], service, p), ForestLeafIds(ts[1..]))
  {
    var leaves, first, rest := ForestLeafPackets(ts, service, p), LeafPackets(ts[0], service, p), ForestLeafPackets(ts[1..], service, p);
    ForestLeafIdsCons(ts);
    ForestCarries(ts, service, p, 0);
    TreeMergeIsSequential(ts[0], service, writes, _ => true, p, leaves);
    assert forall k :: k in rest ==> leaves[k] == rest[k];
    if SomeNull(leaves, ForestLeafIds(ts)) {
      var k :| k in ForestLeafIds(ts) && IsNull(leaves[k].fields);
      assert k in LeafIds(ts[0]) || k in rest;
    }
  }

  /** The map holds exactly the trees' own sequential results, under their
      keys, with what their merges count; only the first of them may hide writes. */
  ghost predicate HoldsTrees(m: LiveMap<Bytes>, ts: seq<Tree>, service: Service, p: Wire) {
    (forall i :: 0 <= i < |ts| ==>
       Key(ts[i]) in m && !IsNull(RunTree(ts[i], service, p)) && m[Key(ts[i])] == TreeInfo(ts[i], service, p))
    && m.Keys == KeysOf(ts) && FirstHides(ts, service.row)
  }

  function TreeInfo(t: Tree, service: Service, p: Wire): Info<Bytes> {
    Info(RunTree(t, service, p), Counted(t, service.row))
  }

  /** No tree hides a write but the one whose key comes first. */
  ghost predicate FirstHides(ts: seq<Tree>, row: int -> Profile) {
    forall i, j :: 0 <= i < |ts| && 0 <= j < |ts| && Key(ts[i]) < Key(ts[j]) ==> Hidden(ts[j], row) == {}
  }

  /** If every tree's info is that of its own sequential run, folding them in
      order of their keys gives every field the value it should have. */
  lemma FoldIsForestRun(ts: seq<Tree>, service: Service, writes: WriteTable, p: Wire, m: LiveMap<Bytes>)
    requires ts != [] && !IsNull(p) && DistinctForest(ts)
    requires FaithfulForest(ts, service, writes) && IndependentForest(ts, service.row)
    requires HoldsTrees(m, ts, service, p)
    ensures m != map[]
    ensures FoldAll(m).fields.id == p.id
    ensures forall f: Field :: FoldAll(m).fields.Get(f) == FieldAfter(ts, service, p, f)
  {
    assert Key(ts[0]) in m;
    assert m.Keys != {};
    var first := Min(m.Keys);
    var i := KeyIndex(ts, first);
    TreeChanges(ts[i], service, writes, p);
    Conservation.FoldKeepsId(m[first], m.Keys - {first}, m);
    forall f: Field {
      FoldField(ts, service, writes, p, m, f);
    }
  }

  lemma TreeChanges(t: Tree, service: Service, writes: WriteTable, p: Wire)
    requires Faithful(t, service, writes) && !IsNull(p) && !IsNull(RunTree(t, service, p))
    ensures AgreeOutside(p, RunTree(t, service, p), TreeProfile(t, service.row).writeSet)
    ensures TreeProfile(t, service.row).writeSet <= MERGEABLE
  {
    TreeRespects(t, service, writes);
    assert AgreeOutside(p, TreeBehaviour(t, service)(p), TreeProfile(t, service.row).writeSet);
  }

  lemma FoldField(ts: seq<Tree>, service: Service, writes: WriteTable, p: Wire, m: LiveMap<Bytes>, f: Field)
    requires ts != [] && m != map[] && !IsNull(p) && DistinctForest(ts)
    requires FaithfulForest(ts, service, writes) && IndependentForest(ts, service.row)
    requires HoldsTrees(m, ts, service, p)
    ensures FoldAll(m).fields.Get(f) == FieldAfter(ts, service, p, f)
  {
    hide *;
    if i :| 0 <= i < |ts| && f in TreeProfile(ts[i], service.row).writeSet {
      SoleTree(ts, service, writes, f, i);
      FieldAfterAt(ts, service, p, f, i);
      if f in Counted(ts[i], service.row) {
        FoldWritten(ts, service, writes, p, m, f, i);
      } else {
        FoldHidden(ts, service, writes, p, m, f, i);
      }
    } else {
      FoldUnwritten(ts, service, writes, p, m, f);
    }
  }

  lemma OthersUncounted(ts: seq<Tree>, service: Service, p: Wire, m: LiveMap<Bytes>, f: Field, i: nat, k: int)
    requires i < |ts| && HoldsTrees(m, ts, service, p) && k in m && k != Key(ts[i])
    requires forall j :: 0 <= j < |ts| && j != i ==> f !in TreeProfile(ts[j], service.row).writeSet
    ensures f !in m[k].written
  {
    var j := KeyIndex(ts, k);
    CountedIsWritten(ts[j], service.row);
    assert m[Key(ts[j])] == TreeInfo(ts[j], service, p);
  }

  lemma FoldWritten(ts: seq<Tree>, service: Service, writes: WriteTable, p: Wire, m: LiveMap<Bytes>, f: Field, i: nat)
    requires m != map[] && !IsNull(p) && i < |ts| && f in Counted(ts[i], service.row) && DistinctForest(ts)
    requires forall j :: 0 <= j < |ts| && j != i ==> f !in TreeProfile(ts[j], service.row).writeSet
    requires FaithfulForest(ts, service, writes) && HoldsTrees(m, ts, service, p)
    ensures FoldAll(m).fields.Get(f) == RunTree(ts[i], service, p).Get(f)
  {
    hide FoldAll, TreeProfile, Counted, RunTree, Key, Ids;
    TreeChanges(ts[i], service, writes, p);
    CountedIsWritten(ts[i], service.row);
    assert m[Key(ts[i])] == TreeInfo(ts[i], service, p);
    forall k | k in m && k != Key(ts[i])
      ensures f !in m[k].written
    {
      OthersUncounted(ts, service, p, m, f, i, k);
    }
    var v := RunTree(ts[i], service, p).Get(f);
    assert Conservation.SoleWriter(m, f, v);
    Conservation.FoldAllSoleWriter(m, f, v);
  }

  lemma OnlyFirstHides(ts: seq<Tree>, row: int -> Profile, f: Field, i: nat, j: nat)
    requires i < |ts| && j < |ts| && FirstHides(ts, row)
    requires f in TreeProfile(ts[i], row).writeSet && f !in Counted(ts[i], row)
    ensures Key(ts[i]) <= Key(ts[j])
  {
    assert f in Hidden(ts[i], row);
  }

  /** A hidden write survives in the first tree: the fold starts from its packet. */
  lemma FoldHidden(ts: seq<Tree>, service: Service, writes: WriteTable, p: Wire, m: LiveMap<Bytes>, f: Field, i: nat)
    requires m != map[] && i < |ts| && DistinctForest(ts)
    requires f in TreeProfile(ts[i], service.row).writeSet && f !in Counted(ts[i], service.row)
    requires forall j :: 0 <= j < |ts| && j != i ==> f !in TreeProfile(ts[j], service.row).writeSet
    requires HoldsTrees(m, ts, service, p)
    ensures FoldAll(m).fields.Get(f) == RunTree(ts[i], service, p).Get(f)
  {
    hide TreeProfile, Counted, RunTree, Key, Ids;
    assert m.Keys != {};
    var first := Min(m.Keys);
    var j := KeyIndex(ts, first);
    assert Key(ts[i]) in m;
    OnlyFirstHides(ts, service.row, f, i, j);
    assert first == Key(ts[i]);
    assert m[first] == TreeInfo(ts[i], service, p);
    forall k | k in m.Keys - {first}
      ensures f !in m[k].written
    {
      OthersUncounted(ts, service, p, m, f, i, k);
    }
    Conservation.FoldConserves(m[first], m.Keys - {first}, m, f);
  }

  lemma FoldUnwritten(ts: seq<Tree>, service: Service, writes: WriteTable, p: Wire, m: LiveMap<Bytes>, f: Field)
    requires m != map[] && !IsNull(p)
    requires forall i :: 0 <= i < |ts| ==> f !in TreeProfile(ts[i], service.row).writeSet
    requires FaithfulForest(ts, service, writes) && HoldsTrees(m, ts, service, p)
    ensures FoldAll(m).fields.Get(f) == FieldAfter(ts, service, p, f)
  {
    hide TreeProfile, Counted, RunTree, Key, FieldAfter;
    NoTreeWrites(ts, service, f);
    forall k | k in m
      ensures f !in m[k].written && m[k].fields.Get(f) == p.Get(f)
    {
      var j := KeyIndex(ts, k);
      assert m[Key(ts[j])] == TreeInfo(ts[j], service, p);
      TreeChanges(ts[j], service, writes, p);
      CountedIsWritten(ts[j], service.row);
    }
    assert m.Keys != {};
    var first := Min(m.Keys);
    Conservation.FoldConserves(m[first], m.Keys - {first}, m, f);
  }

  lemma SoleTree(ts: seq<Tree>, service: Service, writes: WriteTable, f: Field, i: nat)
    requires FaithfulForest(ts, service, writes) && IndependentForest(ts, service.row)
    requires i < |ts| && f in TreeProfile(ts[i], service.row).writeSet
    ensures forall j :: 0 <= j < |ts| && j != i ==> f !in TreeProfile(ts[j], service.row).writeSet
  {
    forall j | 0 <= j < |ts| && j != i
      ensures f !in TreeProfile(ts[j], service.row).writeSet
    {
      TreeRespects(ts[i], service, writes);
      TreeRespects(ts[j], service, writes);
      if i < j {
        assert TreeProfile(ts[i], service.row).writeSet !! TreeProfile(ts[j], service.row).readSet;
      } else {
        assert TreeProfile(ts[j], service.row).writeSet !! TreeProfile(ts[i], service.row).readSet;
      }
    }
  }

  lemma {:induction false} NoTreeWrites(ts: seq<Tree>, service: Service, f: Field)
    requires forall i :: 0 <= i < |ts| ==> f !in TreeProfile(ts[i], service.row).writeSet
    ensures f !in ForestProfile(ts, service.row).writeSet
  {
    if ts == [] {
    } else {
      assert forall j :: 0 <= j < |ts[1..]| ==> ts[1..][j] == ts[j + 1];
      NoTreeWrites(ts[1..], service, f);
    }
  }

  // ----- The main result -----

  /** No write is hidden where it could be lost: not in a branch that gives way
      to another, and not in a tree that the fold meets after another. */
  ghost predicate AllCounted(items: seq<ConflictItem>, ts: seq<Tree>, row: int -> Profile) {
    NothingGivesWay(items, ts, row) && FirstHides(ts, row)
  }

  /** No branch that gives way to another hides a write. */
  ghost predicate NothingGivesWay(items: seq<ConflictItem>, ts: seq<Tree>, row: int -> Profile) {
    forall i :: 0 <= i < |ts| ==> NothingHidden(items, ts[i], row)
  }

  /** Functions sit on the nodes of a forest; each keeps to its action-table
      row, and earlier branches write nothing that later branches read. Every
      leaf sends the merger its copy of the packet. For every conflict list
      that covers the forest's branchings, in any order and either direction,
      with no write hidden, what the merger sends on is what the functions
      would have made of the packet one after the other. */
  lemma MergedServiceIsSequential(items: seq<ConflictItem>, ts: seq<Tree>, service: Service, writes: WriteTable, p: Wire)
    requires ts != [] && DistinctForest(ts) && ListFor(items, ts)
    requires FaithfulForest(ts, service, writes) && IndependentForest(ts, service.row)
    requires AllCounted(items, ts, service.row)
    ensures Irreflexive(items) && ForestLeafPackets(ts, service, p) != map[]
    ensures MergeOutcome(items, writes, ForestLeafPackets(ts, service, p)) == OutcomeOf(RunForest(ts, service, p))
  {
    hide *;
    ListForIrreflexive(items, ts);
    SomePacket(ts, service, p);
    var leaves := ForestLeafPackets(ts, service, p);
    DropTheorem(items, writes, leaves);
    NullForest(ts, service, writes, p);
    ForestRun(ts, service, writes, p);
    if !IsNull(RunForest(ts, service, p)) {
      NonNullForest(items, ts, service, writes, p);
      AgreeEverywhere(MergeAll(items, writes, leaves).fields, RunForest(ts, service, p));
      NotNullDelivers(RunForest(ts, service, p));
    } else {
      NullDrops(RunForest(ts, service, p));
    }
  }

  lemma NotNullDelivers(p: Wire)
    requires !IsNull(p)
    ensures OutcomeOf(p) == Delivered(p)
  {
  }

  lemma NullDrops(p: Wire)
    requires IsNull(p)
    ensures OutcomeOf(p) == Dropped
  {
  }

  lemma NullForest(ts: seq<Tree>, service: Service, writes: WriteTable, p: Wire)
    requires ts != [] && DistinctForest(ts) && FaithfulForest(ts, service, writes) && IndependentForest(ts, service.row)
    ensures var leaves := ForestLeafPackets(ts, service, p);
      IsNull(RunForest(ts, service, p)) <==> exists k :: k in leaves && IsNull(leaves[k].fields)
  {
    hide ForestLeafPackets, RunForest, IsNull, DistinctForest, FaithfulForest, IndependentForest;
    ForestRun(ts, service, writes, p);
  }

  lemma SomePacket(ts: seq<Tree>, service: Service, p: Wire)
    requires ts != []
    ensures ForestLeafPackets(ts, service, p) != map[]
  {
    ForestLeafIdsCons(ts);
    SomeLeaf(ts[0]);
    assert ForestLeafPackets(ts, service, p).Keys != {};
  }

  lemma {:induction false} SomeLeaf(t: Tree)
    ensures LeafIds(t) != {}
  {
    match t
    case Leaf(_) =>
    case Chain(_, below) => SomeLeaf(below);
    case Node(_, left, _) => SomeLeaf(left);
  }

  lemma NonNullForest(items: seq<ConflictItem>, ts: seq<Tree>, service: Service, writes: WriteTable, p: Wire)
    requires ts != [] && DistinctForest(ts) && ListFor(items, ts) && Irreflexive(items)
    requires FaithfulForest(ts, service, writes) && IndependentForest(ts, service.row) && AllCounted(items, ts, service.row)
    requires !IsNull(p) && !IsNull(RunForest(ts, service, p))
    ensures ForestLeafPackets(ts, service, p) != map[]
    ensures MergeAll(items, writes, ForestLeafPackets(ts, service, p)).fields.id == p.id
    ensures forall f: Field :: MergeAll(items, writes, ForestLeafPackets(ts, service, p)).fields.Get(f) == FieldAfter(ts, service, p, f)
  {
    hide *;
    SomePacket(ts, service, p);
    CountedMeans(items, ts, service.row);
    LoopGivesTrees(items, ts, service, writes, p);
    var leaves := ForestLeafPackets(ts, service, p);
    var m := Loop(items, writes, leaves);
    HeldTrees(items, ts, service, p, m);
    FoldIsForestRun(ts, service, writes, p, m);
    LoopThenFold(items, writes, leaves, m);
  }

  lemma CountedMeans(items: seq<ConflictItem>, ts: seq<Tree>, row: int -> Profile)
    requires AllCounted(items, ts, row)
    ensures NothingGivesWay(items, ts, row)
  {
  }

  /** The loop leaves each tree's own sequential result, with what its merge counts. */
  lemma LoopGivesTrees(items: seq<ConflictItem>, ts: seq<Tree>, service: Service, writes: WriteTable, p: Wire)
    requires ts != [] && DistinctForest(ts) && ListFor(items, ts) && Irreflexive(items)
    requires FaithfulForest(ts, service, writes) && IndependentForest(ts, service.row) && NothingGivesWay(items, ts, service.row)
    requires !IsNull(RunForest(ts, service, p))
    ensures var r := Loop(items, writes, ForestLeafPackets(ts, service, p));
      r.Keys == KeysOf(ts)
      && forall i :: 0 <= i < |ts| ==>
           Key(ts[i]) in r && !IsNull(RunTree(ts[i], service, p)) && r[Key(ts[i])] == TreeInfo(ts[i], service, p)
  {
    hide *;
    var leaves := ForestLeafPackets(ts, service, p);
    var orient := OrientationOf(items, ts);
    NullForest(ts, service, writes, p);
    ForestListFromNames(items, ts, service, writes, p, orient);
    LoopIsForestMerge(items, ts, orient, writes, leaves);
    ForestMergeAt(ts, orient, writes, leaves);
    var m := ForestMerge(ts, orient, writes, leaves);
    forall i | 0 <= i < |ts|
      ensures !IsNull(RunTree(ts[i], service, p)) && m[Key(ts[i])] == TreeInfo(ts[i], service, p)
    {
      TreeAt(items, ts, service, writes, p, orient, i);
    }
  }

  lemma LoopThenFold(items: seq<ConflictItem>, writes: WriteTable, leaves: LiveMap<Bytes>, m: LiveMap<Bytes>)
    requires Irreflexive(items) && leaves != map[] && m != map[] && Loop(items, writes, leaves) == m
    ensures MergeAll(items, writes, leaves) == FoldAll(m)
  {
  }

  lemma HeldTrees(items: seq<ConflictItem>, ts: seq<Tree>, service: Service, p: Wire, m: LiveMap<Bytes>)
    requires m.Keys == KeysOf(ts) && AllCounted(items, ts, service.row)
    requires forall i :: 0 <= i < |ts| ==> Key(ts[i]) in m && !IsNull(RunTree(ts[i], service, p)) && m[Key(ts[i])] == TreeInfo(ts[i], service, p)
    ensures HoldsTrees(m, ts, service, p)
  {
  }

  /** One tree of the forest, none of whose copies is null. */
  lemma TreeAt(items: seq<ConflictItem>, ts: seq<Tree>, service: Service, writes: WriteTable, p: Wire, orient: Orientation,
               i: nat)
    requires DistinctForest(ts) && i < |ts| && orient == OrientationOf(items, ts) && ListFor(items, ts)
    requires FaithfulForest(ts, service, writes) && NothingGivesWay(items, ts, service.row)
    requires var leaves := ForestLeafPackets(ts, service, p); forall k :: k in leaves ==> !IsNull(leaves[k].fields)
    ensures LeafIds(ts[i]) <= ForestLeafPackets(ts, service, p).Keys
    ensures !IsNull(RunTree(ts[i], service, p))
    ensures TreeMerge(ts[i], orient, writes, ForestLeafPackets(ts, service, p)) == TreeInfo(ts[i], service, p)
  {
    hide RunTree, Listed, NothingHidden, TreeMerge, ForestLeafPackets, ListFor, IsNull;
    ForestCarries(ts, service, p, i);
    ListsItsOrientation(items, ts, i);
    ListedIsKept(items, ts[i], orient, service.row);
    TreeMergeIsSequential(ts[i], service, writes, orient, p, ForestLeafPackets(ts, service, p));
  }

  lemma ForestListFromNames(items: seq<ConflictItem>, ts: seq<Tree>, service: Service, writes: WriteTable, p: Wire,
                            orient: Orientation)
    requires DistinctForest(ts) && ListFor(items, ts) && FaithfulForest(ts, service, writes)
    requires orient == OrientationOf(items, ts) && NothingGivesWay(items, ts, service.row)
    requires var leaves := ForestLeafPackets(ts, service, p); forall k :: k in leaves ==> !IsNull(leaves[k].fields)
    ensures ForestList(items, ts, orient, writes, ForestLeafPackets(ts, service, p))
  {
    hide RunTree, Listed, NothingHidden, Belongs, ForestLeafPackets, Names, IsNull, Covered;
    var leaves := ForestLeafPackets(ts, service, p);
    forall ci | ci in items
      ensures HasHome(ci, ts, orient, writes, leaves)
    {
      assert NamesOne(ci, ts);
      var i :| 0 <= i < |ts| && Names(ci, ts[i]);
      ForestCarries(ts, service, p, i);
      ListsItsOrientation(items, ts, i);
      NamesBelongs(ci, items, ts[i], service, writes, orient, p, leaves);
      assert BelongsTo(ci, ts[i], orient, writes, leaves);
    }
  }
}

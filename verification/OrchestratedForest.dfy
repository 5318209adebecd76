/** Orchestrator and merger together, for services whose graph is a forest:
    when every list the orchestrator may produce merges to the sequential run,
    with the repository's own example and one that loses a write. */
module OrchestratedForest {
  import opened Packets
  import opened MergeSpec
  import opened MergeForest
  import opened NetworkFunctions
  import opened ServiceForest
  import opened HiddenWrites
  import opened ActionTable
  import opened Parallelism
  import opened GraphPaths
  import opened ServiceGraph
  import F = FlatService
  import O = Orchestrator

  // ----- Graphs that are forests -----

  /** The item of a recorded pair, at the one parent of its major, names a node of the forest. */
  ghost predicate PairFits(o: O.Orchestrator, ids: map<string, int>, ts: seq<Tree>, a: string, b: string)
    reads o
  {
    a in ids && b in ids && a in o.parents
    && exists n :: n in ids && o.parents[a] == {n} && NamesOne(ConflictItem(ids[a], ids[b], ids[n]), ts)
  }

  /** A recorded pair is between the node's two branches, and the node is the major's one parent. */
  ghost predicate PairHere(o: O.Orchestrator, ids: map<string, int>, t: Tree, a: string, b: string, n: string)
    reads o
    requires t.Node?
  {
    O.HasPair(o.pairToConflicts, a, b) && {a, b, n} <= ids.Keys && a in o.parents && o.parents[a] == {n}
    && ids[n] == t.id && Joins(ConflictItem(ids[a], ids[b], t.id), Key(t.left), Key(t.right))
  }

  /** Every node with two branches has such a pair. */
  ghost predicate PairsCover(o: O.Orchestrator, ids: map<string, int>, t: Tree)
    reads o
  {
    match t
    case Leaf(_) => true
    case Chain(_, below) => PairsCover(o, ids, below)
    case Node(_, left, right) =>
      (exists a, b, n :: PairHere(o, ids, t, a, b, n)) && PairsCover(o, ids, left) && PairsCover(o, ids, right)
  }

  /** The recorded pairs are those of the forest's branchings. */
  ghost predicate FitsForest(o: O.Orchestrator, ids: map<string, int>, ts: seq<Tree>)
    reads o
  {
    (forall a, b :: O.HasPair(o.pairToConflicts, a, b) ==> PairFits(o, ids, ts, a, b))
    && forall i :: 0 <= i < |ts| ==> PairsCover(o, ids, ts[i])
  }

  /** Then every list the orchestrator may produce, in any order and with any
      choice the graph leaves it, is a list for the forest. */
  lemma OrchestratedListFor(o: O.Orchestrator, ids: map<string, int>, items: seq<ConflictItem>, ts: seq<Tree>)
    requires FitsForest(o, ids, ts) && O.ConflictsListed(items, o.pairToConflicts, o.parents, ids)
    ensures ListFor(items, ts)
  {
    hide Names, O.NoRepeats, O.Grouped, PairFits, PairsCover, Covered, O.HasPair;
    var pairs, parentOf :| O.ListsConflicts(items, pairs, o.pairToConflicts, o.parents, ids, parentOf);
    forall i | 0 <= i < |items|
      ensures NamesOne(items[i], ts)
    {
      var (a, b) := pairs[i];
      assert (a, b) in pairs;
      PairIsNamed(o, ids, items, ts, pairs, parentOf, i, a, b);
    }
    forall i | 0 <= i < |ts|
      ensures Covered(ts[i], items)
    {
      PairsAreItems(o, ids, items, ts[i], pairs, parentOf);
    }
  }

  lemma PairIsNamed(o: O.Orchestrator, ids: map<string, int>, items: seq<ConflictItem>, ts: seq<Tree>, pairs: seq<Edge>,
                    parentOf: map<string, int>, i: nat, a: string, b: string)
    requires O.ListsConflicts(items, pairs, o.pairToConflicts, o.parents, ids, parentOf)
    requires i < |items| && i < |pairs| && pairs[i] == (a, b) && PairFits(o, ids, ts, a, b)
    ensures NamesOne(items[i], ts)
  {
    hide NamesOne, O.NoRepeats, O.Grouped;
    assert O.ItemFor(items[i], pairs[i], ids, parentOf);
    var n :| n in ids && o.parents[a] == {n} && NamesOne(ConflictItem(ids[a], ids[b], ids[n]), ts);
    assert O.ParentId(o.parents[a], ids, parentOf[a]);
  }

  lemma {:induction false} PairsAreItems(o: O.Orchestrator, ids: map<string, int>, items: seq<ConflictItem>, t: Tree,
                                         pairs: seq<Edge>,
                                         parentOf: map<string, int>)
    requires O.ListsConflicts(items, pairs, o.pairToConflicts, o.parents, ids, parentOf) && PairsCover(o, ids, t)
    ensures Covered(t, items)
  {
    match t
    case Leaf(_) =>
    case Chain(_, below) => PairsAreItems(o, ids, items, below, pairs, parentOf);
    case Node(_, left, right) =>
      PairsAreItems(o, ids, items, left, pairs, parentOf);
      PairsAreItems(o, ids, items, right, pairs, parentOf);
      var a, b, n :| PairHere(o, ids, t, a, b, n);
      PairIsItem(o, ids, items, t, pairs, parentOf, a, b, n);
  }

  lemma PairIsItem(o: O.Orchestrator, ids: map<string, int>, items: seq<ConflictItem>, t: Tree, pairs: seq<Edge>,
                   parentOf: map<string, int>, a: string, b: string, n: string)
    requires O.ListsConflicts(items, pairs, o.pairToConflicts, o.parents, ids, parentOf)
    requires t.Node? && PairHere(o, ids, t, a, b, n)
    ensures exists ci :: ci in items && ci.parent == t.id && Joins(ci, Key(t.left), Key(t.right))
  {
    hide O.NoRepeats, O.Grouped, Key;
    assert (a, b) in pairs;
    var i :| 0 <= i < |pairs| && pairs[i] == (a, b);
    assert O.ItemFor(items[i], pairs[i], ids, parentOf);
    assert O.ParentId(o.parents[a], ids, parentOf[a]);
    assert items[i] in items;
  }

  /** Trees without chains hide nothing. */
  predicate Chainless(t: Tree) {
    match t
    case Leaf(_) => true
    case Chain(_, _) => false
    case Node(_, left, right) => Chainless(left) && Chainless(right)
  }

  lemma {:induction false} ChainlessCountsAll(t: Tree, row: int -> Profile)
    requires Chainless(t)
    ensures Hidden(t, row) == {}
  {
    match t
    case Leaf(_) =>
    case Node(_, left, right) =>
      ChainlessCountsAll(left, row);
      ChainlessCountsAll(right, row);
  }

  lemma {:induction false} ChainlessHidesNothing(items: seq<ConflictItem>, t: Tree, row: int -> Profile)
    requires Chainless(t)
    ensures NothingHidden(items, t, row) && Hidden(t, row) == {}
  {
    ChainlessCountsAll(t, row);
    match t
    case Leaf(_) =>
    case Node(_, left, right) =>
      ChainlessHidesNothing(items, left, row);
      ChainlessHidesNothing(items, right, row);
  }

  /** From the orchestrator's list to the wire, for a forest without chains. */
  lemma ForestServiceIsSequential(o: O.Orchestrator, ids: map<string, int>, items: seq<ConflictItem>, ts: seq<Tree>,
                                  service: Service, writes: WriteTable, p: Wire)
    requires FitsForest(o, ids, ts) && O.ConflictsListed(items, o.pairToConflicts, o.parents, ids)
    requires ts != [] && DistinctForest(ts) && forall i :: 0 <= i < |ts| ==> Chainless(ts[i])
    requires FaithfulForest(ts, service, writes) && IndependentForest(ts, service.row)
    ensures SequentialFor(items, ts, service, writes, p)
  {
    hide *;
    OrchestratedListFor(o, ids, items, ts);
    ChainlessForest(items, ts, service.row);
    MergedServiceIsSequential(items, ts, service, writes, p);
    IsSequential(items, ts, service, writes, p);
  }

  lemma ChainlessForest(items: seq<ConflictItem>, ts: seq<Tree>, row: int -> Profile)
    requires forall i :: 0 <= i < |ts| ==> Chainless(ts[i])
    ensures AllCounted(items, ts, row)
  {
    hide Key, Hidden, NothingHidden, Chainless;
    forall i | 0 <= i < |ts|
      ensures NothingHidden(items, ts[i], row) && Hidden(ts[i], row) == {}
    {
      ChainlessHidesNothing(items, ts[i], row);
    }
  }

  /** No two functions have the same id. */
  ghost predicate DifferentIds(ids: map<string, int>) {
    forall a, b :: a in ids && b in ids && ids[a] == ids[b] ==> a == b
  }

  lemma {:induction false} NamedIn(ci: ConflictItem, t: Tree)
    requires Names(ci, t)
    ensures ci.parent in Ids(t)
  {
    match t
    case Chain(_, below) => NamedIn(ci, below);
    case Node(_, left, right) =>
      if Names(ci, left) {
        NamedIn(ci, left);
      } else if Names(ci, right) {
        NamedIn(ci, right);
      }
  }

  /** One parent, one pair of branches. */
  lemma {:induction false} OnePairEach(ci: ConflictItem, other: ConflictItem, t: Tree)
    requires Distinct(t) && Names(ci, t) && Names(other, t) && ci.parent == other.parent
    ensures Joins(ci, other.major, other.minor)
  {
    match t
    case Chain(_, below) => OnePairEach(ci, other, below);
    case Node(_, left, right) =>
      forall c, branch | c in {ci, other} && branch in {left, right} && Names(c, branch)
        ensures c.parent in Ids(branch)
      {
        NamedIn(c, branch);
      }
      if Names(ci, left) && Names(other, left) {
        OnePairEach(ci, other, left);
      } else if Names(ci, right) && Names(other, right) {
        OnePairEach(ci, other, right);
      }
  }

  lemma OnePairInForest(ci: ConflictItem, other: ConflictItem, ts: seq<Tree>)
    requires DistinctForest(ts) && NamesOne(ci, ts) && NamesOne(other, ts) && ci.parent == other.parent
    ensures Joins(ci, other.major, other.minor)
  {
    hide Ids, Distinct, Names;
    var i :| 0 <= i < |ts| && Names(ci, ts[i]);
    var j :| 0 <= j < |ts| && Names(other, ts[j]);
    NamedIn(ci, ts[i]);
    NamedIn(other, ts[j]);
    OnePairEach(ci, other, ts[i]);
  }

  lemma FittingParent(o: O.Orchestrator, ids: map<string, int>, ts: seq<Tree>, a: string, b: string) returns (n: string)
    requires FitsForest(o, ids, ts) && O.HasPair(o.pairToConflicts, a, b)
    ensures {a, b, n} <= ids.Keys && a in o.parents && o.parents[a] == {n}
    ensures NamesOne(ConflictItem(ids[a], ids[b], ids[n]), ts)
  {
    hide O.HasPair, PairsCover, NamesOne;
    assert PairFits(o, ids, ts, a, b);
    n :| n in ids && o.parents[a] == {n} && NamesOne(ConflictItem(ids[a], ids[b], ids[n]), ts);
  }

  /** With one parent there is one possible item. */
  lemma OneItem(ids: map<string, int>, ci: ConflictItem, pair: Edge, parentOf: map<string, int>, n: string)
    requires O.ItemFor(ci, pair, ids, parentOf) && n in ids && O.ParentId({n}, ids, parentOf[pair.0])
    ensures ci == ConflictItem(ids[pair.0], ids[pair.1], ids[n])
  {
  }

  /** The list has the item of every recorded pair. */
  lemma PairHasItem(o: O.Orchestrator, ids: map<string, int>, items: seq<ConflictItem>, ts: seq<Tree>, a: string, b: string)
    returns (n: string)
    requires FitsForest(o, ids, ts) && O.ConflictsListed(items, o.pairToConflicts, o.parents, ids)
    requires O.HasPair(o.pairToConflicts, a, b)
    ensures {a, b, n} <= ids.Keys && a in o.parents && o.parents[a] == {n} && ConflictItem(ids[a], ids[b], ids[n]) in items
  {
    hide *;
    n := FittingParent(o, ids, ts, a, b);
    var pairs, parentOf := PairsOfList(o, ids, items);
    var i := IndexOfPair(o, ids, items, pairs, parentOf, a, b);
    OneItem(ids, items[i], (a, b), parentOf, n);
    assert items[i] in items;
  }

  lemma IndexOfPair(o: O.Orchestrator, ids: map<string, int>, items: seq<ConflictItem>, pairs: seq<Edge>,
                    parentOf: map<string, int>, a: string, b: string)
    returns (i: nat)
    requires O.ListsConflicts(items, pairs, o.pairToConflicts, o.parents, ids, parentOf) && O.HasPair(o.pairToConflicts, a, b)
    ensures i < |items| && O.ItemFor(items[i], (a, b), ids, parentOf) && a in parentOf && a in o.parents
    ensures O.ParentId(o.parents[a], ids, parentOf[a])
  {
    hide O.NoRepeats, O.Grouped, O.HasPair, O.ParentId;
    assert (a, b) in pairs;
    i :| 0 <= i < |pairs| && pairs[i] == (a, b);
    assert O.ItemFor(items[i], pairs[i], ids, parentOf);
  }

  /** Every item is the one of a recorded pair. */
  lemma ItemHasPair(o: O.Orchestrator, ids: map<string, int>, items: seq<ConflictItem>, ts: seq<Tree>, i: nat)
    returns (a: string, b: string, n: string)
    requires FitsForest(o, ids, ts) && O.ConflictsListed(items, o.pairToConflicts, o.parents, ids) && i < |items|
    ensures O.HasPair(o.pairToConflicts, a, b) && {a, b, n} <= ids.Keys && a in o.parents && o.parents[a] == {n}
    ensures items[i] == ConflictItem(ids[a], ids[b], ids[n]) && NamesOne(items[i], ts)
  {
    hide *;
    var pairs, parentOf := PairsOfList(o, ids, items);
    a, b := PairAtIndex(o, ids, items, pairs, parentOf, i);
    n := FittingParent(o, ids, ts, a, b);
    OneItem(ids, items[i], (a, b), parentOf, n);
  }

  lemma PairAtIndex(o: O.Orchestrator, ids: map<string, int>, items: seq<ConflictItem>, pairs: seq<Edge>,
                    parentOf: map<string, int>, i: nat)
    returns (a: string, b: string)
    requires O.ListsConflicts(items, pairs, o.pairToConflicts, o.parents, ids, parentOf) && i < |items|
    ensures O.HasPair(o.pairToConflicts, a, b) && O.ItemFor(items[i], (a, b), ids, parentOf) && a in parentOf && a in o.parents
    ensures O.ParentId(o.parents[a], ids, parentOf[a])
  {
    hide O.NoRepeats, O.Grouped, O.HasPair, O.ParentId;
    var pair: Edge := pairs[i];
    a, b := pair.0, pair.1;
    assert pair == (a, b) && (a, b) in pairs && O.ItemFor(items[i], pairs[i], ids, parentOf);
  }

  /** All lists for one graph have the same items. */
  lemma SameItems(o: O.Orchestrator, ids: map<string, int>, items: seq<ConflictItem>, items': seq<ConflictItem>, ts: seq<Tree>)
    requires FitsForest(o, ids, ts) && O.ConflictsListed(items, o.pairToConflicts, o.parents, ids)
    requires O.ConflictsListed(items', o.pairToConflicts, o.parents, ids)
    ensures forall ci :: ci in items' ==> ci in items
  {
    hide *;
    forall i | 0 <= i < |items'|
      ensures items'[i] in items
    {
      var a, b, n := ItemHasPair(o, ids, items', ts, i);
      var n' := PairHasItem(o, ids, items, ts, a, b);
      assert n' in o.parents[a];
    }
  }

  lemma {:induction false} AtMostOnce<T>(s: seq<T>, x: T)
    requires F.NoneTwice(s)
    ensures multiset(s)[x] <= 1
  {
    if s == [] {
    } else {
      AtMostOnce(s[1..], x);
      assert s == [s[0]] + s[1..];
      assert x == s[0] ==> x !in s[1..];
    }
  }

  lemma PermutedNoneTwice<T>(s: seq<T>, t: seq<T>)
    requires F.NoneTwice(s) && multiset(t) == multiset(s)
    ensures F.NoneTwice(t)
  {
    forall i, j | 0 <= i < j < |t|
      ensures t[i] != t[j]
    {
      AtMostOnce(s, t[i]);
      assert t == t[..j] + t[j..] && t[i] in t[..j] && t[j] in t[j..];
      assert multiset(t) == multiset(t[..j]) + multiset(t[j..]);
    }
  }

  /** The pairs of the same items in another order. */
  lemma PairsInOrder(ids: map<string, int>, items: seq<ConflictItem>, pairs: seq<Edge>, parentOf: map<string, int>,
                     items': seq<ConflictItem>)
    returns (pairs': seq<Edge>)
    requires DifferentIds(ids) && O.ItemsFor(items, pairs, ids, parentOf) && forall ci :: ci in items <==> ci in items'
    ensures O.ItemsFor(items', pairs', ids, parentOf) && forall p :: p in pairs' <==> p in pairs
  {
    forall j | 0 <= j < |items'|
      ensures exists p :: p in pairs && O.ItemFor(items'[j], p, ids, parentOf)
    {
      assert items'[j] in items;
      var i :| 0 <= i < |items| && items[i] == items'[j];
      assert O.ItemFor(items[i], pairs[i], ids, parentOf) && pairs[i] in pairs;
    }
    pairs' := seq(|items'|, j requires 0 <= j < |items'| => PairOf(items'[j], pairs, ids, parentOf));
    forall i | 0 <= i < |pairs|
      ensures pairs[i] in pairs'
    {
      assert O.ItemFor(items[i], pairs[i], ids, parentOf) && items[i] in items;
      var j :| 0 <= j < |items'| && items'[j] == items[i];
      SamePair(items[i], ids, parentOf, pairs[i], pairs'[j]);
    }
  }

  ghost function PairOf(ci: ConflictItem, pairs: seq<Edge>, ids: map<string, int>, parentOf: map<string, int>): (p: Edge)
    requires exists p :: p in pairs && O.ItemFor(ci, p, ids, parentOf)
    ensures p in pairs && O.ItemFor(ci, p, ids, parentOf)
  {
    var p :| p in pairs && O.ItemFor(ci, p, ids, parentOf);
    p
  }

  lemma SamePair(ci: ConflictItem, ids: map<string, int>, parentOf: map<string, int>, p: Edge, q: Edge)
    requires DifferentIds(ids) && O.ItemFor(ci, p, ids, parentOf) && O.ItemFor(ci, q, ids, parentOf)
    ensures p == q
  {
  }

  lemma ItemsDiffer(ids: map<string, int>, items: seq<ConflictItem>, pairs: seq<Edge>, parentOf: map<string, int>)
    requires DifferentIds(ids) && O.ItemsFor(items, pairs, ids, parentOf)
    ensures F.NoneTwice(items) <==> O.NoRepeats(pairs)
  {
    forall i, j | 0 <= i < j < |items|
      ensures items[i] == items[j] <==> pairs[i] == pairs[j]
    {
      assert O.ItemFor(items[i], pairs[i], ids, parentOf) && O.ItemFor(items[j], pairs[j], ids, parentOf);
    }
  }

  /** In a forest no major is listed twice, so the grouping allows every order. */
  lemma ForestIsGrouped(ids: map<string, int>, items: seq<ConflictItem>, pairs: seq<Edge>, parentOf: map<string, int>, ts: seq<Tree>)
    requires DistinctForest(ts) && O.ItemsFor(items, pairs, ids, parentOf) && F.NoneTwice(items)
    requires forall ci :: ci in items ==> NamesOne(ci, ts)
    ensures O.Grouped(pairs)
  {
    hide DistinctForest, NamesOne;
    forall i, k | 0 <= i < k < |pairs|
      ensures pairs[i].0 != pairs[k].0
    {
      assert O.ItemFor(items[i], pairs[i], ids, parentOf) && O.ItemFor(items[k], pairs[k], ids, parentOf);
      assert items[i] in items && items[k] in items && items[i] != items[k];
      if pairs[i].0 == pairs[k].0 {
        OnePairInForest(items[i], items[k], ts);
        assert false;
      }
    }
  }

  /** Every order of a list is one the orchestrator may produce. */
  lemma AnyOrderListed(o: O.Orchestrator, ids: map<string, int>, items: seq<ConflictItem>, items': seq<ConflictItem>, ts: seq<Tree>)
    requires FitsForest(o, ids, ts) && DistinctForest(ts) && DifferentIds(ids)
    requires O.ConflictsListed(items, o.pairToConflicts, o.parents, ids) && multiset(items') == multiset(items)
    ensures O.ConflictsListed(items', o.pairToConflicts, o.parents, ids)
  {
    hide *;
    SameElements(items, items');
    forall ci | ci in items
      ensures NamesOne(ci, ts)
    {
      var i :| 0 <= i < |items| && items[i] == ci;
      var a, b, n := ItemHasPair(o, ids, items, ts, i);
    }
    var pairs, parentOf := PairsOfList(o, ids, items);
    var pairs' := PairsInOrder(ids, items, pairs, parentOf, items');
    ItemsDiffer(ids, items, pairs, parentOf);
    PermutedNoneTwice(items, items');
    ItemsDiffer(ids, items', pairs', parentOf);
    ForestIsGrouped(ids, items', pairs', parentOf, ts);
    Relisted(o, ids, items, pairs, parentOf, items', pairs');
  }

  lemma SameElements<T>(s: seq<T>, t: seq<T>)
    requires multiset(t) == multiset(s)
    ensures forall x :: x in s <==> x in t
  {
    assert forall x :: x in s <==> x in multiset(s);
    assert forall x :: x in t <==> x in multiset(t);
  }

  lemma PairsOfList(o: O.Orchestrator, ids: map<string, int>, items: seq<ConflictItem>)
    returns (pairs: seq<Edge>, parentOf: map<string, int>)
    requires O.ConflictsListed(items, o.pairToConflicts, o.parents, ids)
    ensures O.ListsConflicts(items, pairs, o.pairToConflicts, o.parents, ids, parentOf)
    ensures O.ItemsFor(items, pairs, ids, parentOf) && O.NoRepeats(pairs)
  {
    pairs, parentOf :| O.ListsConflicts(items, pairs, o.pairToConflicts, o.parents, ids, parentOf);
  }

  lemma Relisted(o: O.Orchestrator, ids: map<string, int>, items: seq<ConflictItem>, pairs: seq<Edge>,
                 parentOf: map<string, int>, items': seq<ConflictItem>, pairs': seq<Edge>)
    requires O.ListsConflicts(items, pairs, o.pairToConflicts, o.parents, ids, parentOf)
    requires O.ItemsFor(items', pairs', ids, parentOf) && O.NoRepeats(pairs') && O.Grouped(pairs')
    requires forall p :: p in pairs' <==> p in pairs
    ensures O.ConflictsListed(items', o.pairToConflicts, o.parents, ids)
  {
    hide O.NoRepeats, O.Grouped, O.ItemsFor, O.ParentId, O.HasPair;
    assert O.ListsConflicts(items', pairs', o.pairToConflicts, o.parents, ids, parentOf);
  }

  /** For every list the orchestrator may produce, all functions within their
      rows and every real packet, the merger sends on what the sequential run would. */
  ghost predicate ForestAlwaysSequential(o: O.Orchestrator, ids: map<string, int>, ts: seq<Tree>, row: int -> Profile,
                                         writes: WriteTable)
    reads o
  {
    forall items: seq<ConflictItem>, service: Service, p: Wire {:trigger SequentialFor(items, ts, service, writes, p)} ::
      O.ConflictsListed(items, o.pairToConflicts, o.parents, ids) && service.row == row && FaithfulAll(ts, service, writes)
      && MakesPackets(service) && WellFormed(p) ==>
        SequentialFor(items, ts, service, writes, p)
  }

  /** For a forest with chains: exactly when every list the orchestrator may
      produce merges to the sequential run. */
  lemma ForestServiceExactly(o: O.Orchestrator, ids: map<string, int>, items: seq<ConflictItem>, ts: seq<Tree>,
                             row: int -> Profile, writes: WriteTable)
    requires FitsForest(o, ids, ts) && O.ConflictsListed(items, o.pairToConflicts, o.parents, ids) && DifferentIds(ids)
    requires ts != [] && DistinctForest(ts) && RowsFit(ts, row, writes) && IndependentAll(ts, row)
    ensures ForestAlwaysSequential(o, ids, ts, row, writes) <==> AllCounted(items, ts, row)
  {
    hide FitsForest, O.ConflictsListed, DifferentIds, DistinctForest, RowsFit, IndependentAll, AllCounted, SequentialFor,
         FaithfulAll, MakesPackets, WellFormed;
    OrchestratedListFor(o, ids, items, ts);
    MergedServiceExactly(items, ts, row, writes);
    if AllCounted(items, ts, row) {
      forall items': seq<ConflictItem>, service: Service, p: Wire
        | O.ConflictsListed(items', o.pairToConflicts, o.parents, ids) && service.row == row && FaithfulAll(ts, service, writes)
          && MakesPackets(service) && WellFormed(p)
        ensures SequentialFor(items', ts, service, writes, p)
      {
        OrchestratedListFor(o, ids, items', ts);
        SameItems(o, ids, items, items', ts);
        FewerAllCounted(items, items', ts, row);
        CountedIsSequential(items', ts, service, writes, p);
      }
    } else {
      var items': seq<ConflictItem>, service: Service, p: Wire
        :| multiset(items') == multiset(items) && service.row == row && FaithfulAll(ts, service, writes)
           && MakesPackets(service) && WellFormed(p) && !SequentialFor(items', ts, service, writes, p);
      AnyOrderListed(o, ids, items, items', ts);
    }
  }

  lemma FewerAllCounted(items: seq<ConflictItem>, items': seq<ConflictItem>, ts: seq<Tree>, row: int -> Profile)
    requires AllCounted(items, ts, row) && forall ci :: ci in items' ==> ci in items
    ensures AllCounted(items', ts, row)
  {
    hide NothingHidden, FirstHides;
    forall i | 0 <= i < |ts|
      ensures NothingHidden(items', ts[i], row)
    {
      NothingHiddenBySame(items, items', ts[i], row);
    }
  }

  lemma CountedIsSequential(items: seq<ConflictItem>, ts: seq<Tree>, service: Service, writes: WriteTable, p: Wire)
    requires ts != [] && DistinctForest(ts) && ListFor(items, ts) && AllCounted(items, ts, service.row)
    requires FaithfulAll(ts, service, writes) && IndependentAll(ts, service.row)
    ensures SequentialFor(items, ts, service, writes, p)
  {
    hide DistinctForest, ListFor, AllCounted, Faithful, Independent, IndependentForest, MergeOutcome, ForestLeafPackets, RunForest;
    MergedServiceIsSequential(items, ts, service, writes, p);
  }

  // ----- Writes hidden behind the first tree -----

  /** A write that a tree hides is lost for every list, all functions and
      every packet, if the fold meets the tree after another one. */
  lemma HiddenBehindFirst(items: seq<ConflictItem>, ts: seq<Tree>, service: Service, writes: WriteTable, p: Wire, f: Field,
                          h: nat, i: nat)
    requires DistinctForest(ts) && ListFor(items, ts) && FaithfulForest(ts, service, writes) && IndependentForest(ts, service.row)
    requires NothingGivesWay(items, ts, service.row) && !IsNull(RunForest(ts, service, p))
    requires h < |ts| && i < |ts| && Key(ts[h]) < Key(ts[i]) && f in Hidden(ts[i], service.row)
    ensures Irreflexive(items) && ForestLeafPackets(ts, service, p) != map[]
    ensures var outcome := MergeOutcome(items, writes, ForestLeafPackets(ts, service, p));
      outcome.Delivered? && outcome.packet.Get(f) == p.Get(f)
    ensures RunForest(ts, service, p).Get(f) == RunTree(ts[i], service, p).Get(f) && !IsNull(RunTree(ts[i], service, p))
  {
    hide *;
    var leaves := ForestLeafPackets(ts, service, p);
    ListForIrreflexive(items, ts);
    SomePacket(ts, service, p);
    DropTheorem(items, writes, leaves);
    NullForest(ts, service, writes, p);
    ForestRun(ts, service, writes, p);
    LoopGivesTrees(items, ts, service, writes, p);
    HiddenMeans(ts[i], service.row, f);
    SoleTree(ts, service, writes, f, i);
    FieldAfterAt(ts, service, p, f, i);
    var r := Loop(items, writes, leaves);
    forall k | k in r
      ensures if k == Key(ts[i]) then f !in r[k].written else r[k].fields.Get(f) == p.Get(f)
    {
      var j := KeyIndex(ts, k);
      DifferentKeys(ts, i, j);
      FieldOfTree(ts, service, writes, p, f, i, j);
    }
    KeysThere(ts, h, i);
    LoopThenFold(items, writes, leaves, r);
    FoldAllKeepsValue(r, f, p.Get(f));
  }

  lemma HiddenMeans(t: Tree, row: int -> Profile, f: Field)
    requires f in Hidden(t, row)
    ensures f in TreeProfile(t, row).writeSet && f !in Counted(t, row)
  {
  }

  lemma DifferentKeys(ts: seq<Tree>, i: nat, j: nat)
    requires DistinctForest(ts) && i < |ts| && j < |ts|
    ensures Key(ts[i]) == Key(ts[j]) ==> i == j
  {
    hide Ids, Key;
    DisjointTrees(ts, i, j);
    assert Key(ts[i]) in Ids(ts[i]) && Key(ts[j]) in Ids(ts[j]);
  }

  lemma KeysThere(ts: seq<Tree>, h: nat, i: nat)
    requires h < |ts| && i < |ts|
    ensures Key(ts[h]) in KeysOf(ts) && Key(ts[i]) in KeysOf(ts)
  {
  }

  lemma FieldOfTree(ts: seq<Tree>, service: Service, writes: WriteTable, p: Wire, f: Field, i: nat, j: nat)
    requires i < |ts| && j < |ts| && FaithfulForest(ts, service, writes) && !IsNull(p) && !IsNull(RunTree(ts[j], service, p))
    requires f !in Counted(ts[i], service.row)
    requires forall k :: 0 <= k < |ts| && k != i ==> f !in TreeProfile(ts[k], service.row).writeSet
    ensures if j == i then f !in TreeInfo(ts[j], service, p).written else TreeInfo(ts[j], service, p).fields.Get(f) == p.Get(f)
  {
    hide TreeProfile, Counted, RunTree, IsNull;
    TreeChanges(ts[j], service, writes, p);
  }

  // ----- Order trees of one level, and the functions beside them -----

  /** One function x with edges to others, the first function before x and
      before the functions of priority constraints; the pairs recorded are
      those on the two levels. */
  ghost predicate StarOrchestrated(o: O.Orchestrator, first: string, x: string, kids: set<string>, level: set<string>)
    reads o
  {
    o.Valid() && kids + level + {first, x} <= o.neighbors.Keys && kids + level <= o.actionTable.Keys
    && o.Edges() == EdgesFrom(x, kids) + EdgesFrom(first, {x} + level)
    && forall a, b :: O.HasPair(o.pairToConflicts, a, b) <==>
                        O.LevelPair(kids, o.actionTable, a, b) || O.LevelPair(level, o.actionTable, a, b)
  }

  /** The names are different, but x may itself be on the upper level. */
  ghost predicate Apart(first: string, x: string, kids: set<string>, level: set<string>) {
    kids != {} && first !in kids && first !in level && first != x && x !in kids && kids !! level
  }

  lemma StarParents(o: O.Orchestrator, first: string, x: string, kids: set<string>, level: set<string>)
    requires StarOrchestrated(o, first, x, kids, level) && Apart(first, x, kids, level)
    ensures forall a :: a in kids ==> a in o.parents && o.parents[a] == {x}
    ensures forall a :: a in level ==> a in o.parents && o.parents[a] == {first}
  {
    forall a | a in kids
      ensures a in o.parents && o.parents[a] == {x}
    {
      forall n
        ensures n in o.parents[a] <==> n == x
      {
        assert n in o.parents[a] <==> (n, a) in o.Edges();
        assert (n, a).0 == n && (n, a).1 == a;
      }
    }
    forall a | a in level
      ensures a in o.parents && o.parents[a] == {first}
    {
      forall n
        ensures n in o.parents[a] <==> n == first
      {
        assert n in o.parents[a] <==> (n, a) in o.Edges();
        assert (n, a).0 == n && (n, a).1 == a;
      }
    }
  }

  /** The order tree itself: one root, and the others its leaves. */
  lemma StarTree(x: string, kids: set<string>)
    requires x !in kids && kids != {}
    ensures Endpoints(EdgesFrom(x, kids)) == kids + {x}
    ensures RootNodes(EdgesFrom(x, kids)) == {x}
    ensures LeavesFrom(EdgesFrom(x, kids), x) == kids
  {
    var edges := EdgesFrom(x, kids);
    assert forall e :: e in edges <==> e.0 == x && e.1 in kids by {
      assert forall e: Edge :: e == (e.0, e.1);
    }
    var some := Pick(kids);
    assert (x, some) in edges && (x, some).0 == x;
    forall n
      ensures n in Endpoints(edges) <==> n in kids + {x}
    {
      if n in kids {
        EdgeEnds(edges, x, n);
      }
    }
    forall n
      ensures n in RootNodes(edges) <==> n == x
    {
      if n in kids {
        assert (x, n) in edges && (x, n).1 == n;
      }
    }
    forall l
      ensures l in LeavesFrom(edges, x) <==> l in kids
    {
      LeavesStep(edges, x, l);
      if l in kids {
        LeavesStep(edges, l, l);
        assert (x, l) in edges;
      }
      if c :| (x, c) in edges && l in LeavesFrom(edges, c) {
        LeavesStep(edges, c, l);
        assert c in kids && NoOut(edges, c);
      }
    }
  }

  lemma StarPairs(x: string, kids: set<string>, level: set<string>, rows: map<string, Row>, a: string, b: string)
    requires x !in kids && kids != {} && kids + level + {x} <= rows.Keys
    ensures Endpoints(EdgesFrom(x, kids)) == kids + {x}
    ensures O.OnOneLevel(EdgesFrom(x, kids), level, rows, a, b) <==> O.LevelPair(kids, rows, a, b) || O.LevelPair(level, rows, a, b)
  {
    hide Parallelizable, LeavesFrom, RootNodes, Endpoints;
    StarTree(x, kids);
    assert O.SharesTree(EdgesFrom(x, kids), rows, x, a, b) <==> O.LevelPair(kids, rows, a, b);
  }

  /** The order constraints of x with each of the others. */
  function FromEach(x: string, kids: seq<string>): (deps: seq<Edge>)
    ensures |deps| == |kids| && forall i :: 0 <= i < |kids| ==> deps[i] == (x, kids[i])
  {
    seq(|kids|, i requires 0 <= i < |kids| => (x, kids[i]))
  }

  lemma {:induction false} AllFiltered(deps: seq<Edge>, rows: map<string, Row>, parallel: bool)
    requires forall d :: d in deps ==> d.0 in rows && d.1 in rows
    requires forall d :: d in deps ==> Parallelizable(rows[d.0], rows[d.1]) == parallel
    ensures O.Filtered(deps, rows, parallel) == deps && O.Filtered(deps, rows, !parallel) == []
  {
    hide Parallelizable;
    if deps == [] {
    } else {
      assert deps[0] in deps;
      AllFiltered(deps[1..], rows, parallel);
    }
  }

  lemma StarEdges(x: string, kids: seq<string>)
    ensures OrderEdges(FromEach(x, kids)) == EdgesFrom(x, F.SetOf(kids))
  {
    forall e
      ensures e in OrderEdges(FromEach(x, kids)) <==> e in EdgesFrom(x, F.SetOf(kids))
    {
      if e in EdgesFrom(x, F.SetOf(kids)) {
        var i :| 0 <= i < |kids| && kids[i] == e.1;
        assert FromEach(x, kids)[i] == e;
      }
    }
  }

  lemma StarRank(x: string, kids: set<string>, rank: Rank)
    requires x !in kids && kids != {} && rank == (n => if n == x then 1 else 0)
    ensures RankedFromRoots(EdgesFrom(x, kids), rank)
  {
    StarTree(x, kids);
  }

  /** All that is recorded is about nodes of the graph. */
  lemma StarPairsAreNodes(o: O.Orchestrator, first: string, x: string, kids: set<string>, level: set<string>)
    requires StarOrchestrated(o, first, x, kids, level) && o.FieldsKept()
    ensures forall a :: a in o.pairToConflicts ==> a in o.neighbors && o.pairToConflicts[a].Keys <= o.neighbors.Keys
  {
    hide Parallelizable;
    forall a | a in o.pairToConflicts
      ensures a in o.neighbors && o.pairToConflicts[a].Keys <= o.neighbors.Keys
    {
      assert o.pairToConflicts[a].Keys != {};
      var some := Pick(o.pairToConflicts[a].Keys);
      assert O.HasPair(o.pairToConflicts, a, some);
      forall b | b in o.pairToConflicts[a]
        ensures b in o.neighbors
      {
        assert O.HasPair(o.pairToConflicts, a, b);
      }
    }
  }

  /** What is recorded on the way is on one of the two levels. */
  lemma RecordedOnLevel(dependencies: seq<Edge>, priorities: seq<Edge>, rows: map<string, Row>)
    requires forall d :: d in dependencies || d in priorities ==> d.0 in rows && d.1 in rows
    requires forall d :: d in dependencies ==> !Parallelizable(rows[d.0], rows[d.1])
    requires forall d :: d in priorities ==> d.0 != d.1 && d.0 in Constrained(priorities) && d.1 in Constrained(priorities)
    requires Constrained(priorities) <= rows.Keys
    ensures forall a, b :: ((a, b) in dependencies || (a, b) in priorities) && Parallelizable(rows[a], rows[b]) ==>
                             O.LevelPair(Constrained(priorities), rows, a, b)
  {
    hide Parallelizable, Constrained;
    forall a, b | ((a, b) in dependencies || (a, b) in priorities) && Parallelizable(rows[a], rows[b])
      ensures O.LevelPair(Constrained(priorities), rows, a, b)
    {
      assert (a, b).0 == a && (a, b).1 == b;
    }
  }

  lemma StarServiceEdges(first: string, x: string, kids: set<string>, level: set<string>)
    requires x !in kids && kids != {}
    ensures ServiceEdges(EdgesFrom(x, kids), level, Some(first), None) == EdgesFrom(x, kids) + EdgesFrom(first, {x} + level)
  {
    StarTree(x, kids);
    assert EdgesFrom(first, {x}) + EdgesFrom(first, level) == EdgesFrom(first, {x} + level);
  }

  lemma ConstraintNames(x: string, kids: seq<string>, priorities: seq<Edge>, functions: seq<string>)
    requires forall n :: n in kids || n in Constrained(priorities) || n == x ==> n in functions
    ensures forall d :: d in priorities ==> d.0 in Constrained(priorities) && d.1 in Constrained(priorities)
    ensures forall d :: d in FromEach(x, kids) ==> d.0 == x && d.1 in kids
    ensures forall d :: d in FromEach(x, kids) || d in priorities ==> O.Named(d, functions)
  {
  }

  /** What the constructor asks of the constraints, and makes of them. */
  lemma StarConstraints(rows: map<string, Row>, x: string, kids: seq<string>, priorities: seq<Edge>, rank: Rank)
    requires kids != [] && x !in kids && x in rows
    requires forall k :: k in kids ==> k in rows && !Parallelizable(rows[x], rows[k])
    requires forall d :: d in priorities ==> d.0 in rows && d.1 in rows && Parallelizable(rows[d.0], rows[d.1])
    requires rank == (n => if n == x then 1 else 0)
    ensures forall d :: d in FromEach(x, kids) ==> d.0 in rows && d.1 in rows && !Parallelizable(rows[d.0], rows[d.1])
    ensures O.Filtered(FromEach(x, kids), rows, false) == FromEach(x, kids) && O.Filtered(FromEach(x, kids), rows, true) == []
    ensures O.Filtered(priorities, rows, true) == priorities
    ensures OrderEdges(FromEach(x, kids)) == EdgesFrom(x, F.SetOf(kids))
    ensures RankedFromRoots(OrderEdges(FromEach(x, kids)), rank)
    ensures x !in F.SetOf(kids) && F.SetOf(kids) != {}
  {
    hide Parallelizable, RankedFromRoots, OrderEdges, O.Filtered;
    assert kids[0] in F.SetOf(kids);
    AllFiltered(FromEach(x, kids), rows, false);
    AllFiltered(priorities, rows, true);
    StarEdges(x, kids);
    StarRank(x, F.SetOf(kids), rank);
  }

  lemma StarMade(o: O.Orchestrator, first: string, x: string, kids: set<string>, level: set<string>, functions: seq<string>,
                 dependencies: seq<Edge>, priorities: seq<Edge>)
    requires o.Valid() && x !in kids && kids != {}
    requires forall n :: n in kids || n in level || n == x || n == first ==> n in o.neighbors
    requires kids + level + {x} <= o.actionTable.Keys
    requires forall d :: d in dependencies || d in priorities ==> d.0 in o.actionTable && d.1 in o.actionTable
    requires forall a, b :: ((a, b) in dependencies || (a, b) in priorities) && Parallelizable(o.actionTable[a], o.actionTable[b]) ==>
                              O.LevelPair(level, o.actionTable, a, b)
    requires Endpoints(EdgesFrom(x, kids)) == kids + {x}
    requires forall a, b :: O.HasPair(o.pairToConflicts, a, b) <==>
               (((a, b) in dependencies || (a, b) in priorities) && o.Recorded(a, b))
               || O.OnOneLevel(EdgesFrom(x, kids), level, o.actionTable, a, b)
    requires o.Edges() == EdgesFrom(x, kids) + EdgesFrom(first, {x} + level)
    ensures StarOrchestrated(o, first, x, kids, level)
  {
    hide Parallelizable, O.LevelPair, O.OnOneLevel, ConflictFields, O.HasPair, Endpoints;
    forall a, b
      ensures O.HasPair(o.pairToConflicts, a, b) <==>
              O.LevelPair(kids, o.actionTable, a, b) || O.LevelPair(level, o.actionTable, a, b)
    {
      StarPairs(x, kids, level, o.actionTable, a, b);
    }
  }

  method MakeStar(actionTable: map<string, Row>, functions: seq<string>, first: string, x: string, kids: seq<string>,
                  priorities: seq<Edge>, ips: seq<string>)
    returns (o: O.Orchestrator)
    requires kids != [] && Apart(first, x, F.SetOf(kids), Constrained(priorities))
    requires F.SetOf(kids) + Constrained(priorities) + {x} <= actionTable.Keys
    requires forall n :: n in kids || n in Constrained(priorities) || n == x || n == first ==> n in functions
    requires forall k :: k in kids ==> k in actionTable && !Parallelizable(actionTable[x], actionTable[k])
    requires forall d :: d in priorities ==> d.0 in actionTable && d.1 in actionTable
    requires forall d :: d in priorities ==> d.0 != d.1 && Parallelizable(actionTable[d.0], actionTable[d.1])
    requires ips != []
    ensures fresh(o) && o.actionTable == actionTable && o.FieldsKept() && forall f :: f in o.neighbors <==> f in functions
    ensures StarOrchestrated(o, first, x, F.SetOf(kids), Constrained(priorities))
  {
    hide *;
    var dependencies := FromEach(x, kids);
    ghost var all, level := F.SetOf(kids), Constrained(priorities);
    ghost var rank: Rank := n => if n == x then 1 else 0;
    ConstraintNames(x, kids, priorities, functions);
    StarApart(first, x, kids, priorities);
    StarConstraints(actionTable, x, kids, priorities, rank);
    F.OnlyFirst(first);
    o := new O.Orchestrator(actionTable, functions, [(first, "first")], dependencies, priorities, ips, rank);
    StarServiceEdges(first, x, all, level);
    RecordedOnLevel(dependencies, priorities, actionTable);
    StarTree(x, all);
    assert [] + priorities == priorities;
    assert o.parsedOrder == dependencies && o.parsedPriorities == priorities;
    StarMade(o, first, x, all, level, functions, dependencies, priorities);
  }

  lemma StarApart(first: string, x: string, kids: seq<string>, priorities: seq<Edge>)
    requires kids != [] && Apart(first, x, F.SetOf(kids), Constrained(priorities))
    ensures x !in kids && x !in F.SetOf(kids) && F.SetOf(kids) != {}
    ensures forall k :: k in F.SetOf(kids) <==> k in kids
  {
  }

  /** Order constraints that all rule out parallel runs, from one function to
      others, and priorities that all allow them make such a service and a
      conflict list for it. */
  method OrchestrateStar(actionTable: map<string, Row>, functions: seq<string>, first: string, x: string, kids: seq<string>,
                         priorities: seq<Edge>, ips: seq<string>, ids: map<string, int>)
    returns (o: O.Orchestrator, items: seq<ConflictItem>)
    requires kids != [] && Apart(first, x, F.SetOf(kids), Constrained(priorities))
    requires F.SetOf(kids) + Constrained(priorities) + {x} <= actionTable.Keys
    requires forall n :: n in kids || n in Constrained(priorities) || n == x || n == first ==> n in functions
    requires forall k :: k in kids ==> k in actionTable && !Parallelizable(actionTable[x], actionTable[k])
    requires forall d :: d in priorities ==> d.0 in actionTable && d.1 in actionTable
    requires forall d :: d in priorities ==> d.0 != d.1 && Parallelizable(actionTable[d.0], actionTable[d.1])
    requires ips != [] && forall f :: f in functions ==> f in ids
    ensures fresh(o) && o.actionTable == actionTable
    ensures StarOrchestrated(o, first, x, F.SetOf(kids), Constrained(priorities))
    ensures O.ConflictsListed(items, o.pairToConflicts, o.parents, ids)
  {
    hide *;
    o := MakeStar(actionTable, functions, first, x, kids, priorities, ips);
    StarPairsAreNodes(o, first, x, F.SetOf(kids), Constrained(priorities));
    StarIsValid(o, first, x, F.SetOf(kids), Constrained(priorities));
    items := o.CreateConflictsList(ids);
  }

  lemma StarIsValid(o: O.Orchestrator, first: string, x: string, kids: set<string>, level: set<string>)
    requires StarOrchestrated(o, first, x, kids, level)
    ensures o.Valid()
  {
  }

  // ----- Two shapes -----

  /** x over a and b, and y beside x. */
  function TwoLevel(ids: map<string, int>, first: string, x: string, a: string, b: string, y: string): seq<Tree>
    requires {first, x, a, b, y} <= ids.Keys
  {
    [Node(ids[first], Leaf(ids[y]), Node(ids[x], Leaf(ids[a]), Leaf(ids[b])))]
  }

  /** One of the two may run in parallel with the other after it. */
  ghost predicate EitherWay(rows: map<string, Row>, a: string, b: string)
    requires a in rows && b in rows
  {
    Parallelizable(rows[a], rows[b]) || Parallelizable(rows[b], rows[a])
  }

  /** The pair in a direction in which it is recorded. */
  lemma PairOnLevel(o: O.Orchestrator, first: string, x: string, kids: set<string>, level: set<string>, a: string, b: string)
    returns (c: string, d: string)
    requires StarOrchestrated(o, first, x, kids, level) && a != b && {a, b} <= o.actionTable.Keys
    requires ({a, b} <= kids || {a, b} <= level) && EitherWay(o.actionTable, a, b)
    ensures O.HasPair(o.pairToConflicts, c, d) && ((c == a && d == b) || (c == b && d == a))
  {
    hide Parallelizable;
    if Parallelizable(o.actionTable[a], o.actionTable[b]) {
      c, d := a, b;
    } else {
      c, d := b, a;
    }
    assert O.LevelPair(kids, o.actionTable, c, d) || O.LevelPair(level, o.actionTable, c, d);
  }

  /** Two leaves on a level of two are named by the item of their pair at their parent. */
  lemma TwoOnLevel(rows: map<string, Row>, level: set<string>, x: string, y: string, a: string, b: string)
    requires level <= rows.Keys && level == {x, y} && O.LevelPair(level, rows, a, b)
    ensures (a == x && b == y) || (a == y && b == x)
  {
  }

  lemma TwoLevelFits(o: O.Orchestrator, ids: map<string, int>, first: string, x: string, a: string, b: string, y: string)
    requires StarOrchestrated(o, first, x, {a, b}, {x, y}) && Apart(first, x, {a, b}, {x, y}) && a != b && x != y
    requires {first, x, a, b, y} <= ids.Keys && {a, b, x, y} <= o.actionTable.Keys
    requires EitherWay(o.actionTable, a, b) && EitherWay(o.actionTable, x, y)
    ensures FitsForest(o, ids, TwoLevel(ids, first, x, a, b, y))
  {
    hide Parallelizable, EitherWay, StarOrchestrated;
    StarParents(o, first, x, {a, b}, {x, y});
    var ts := TwoLevel(ids, first, x, a, b, y);
    var inner := ts[0].right;
    forall c, d | O.HasPair(o.pairToConflicts, c, d)
      ensures PairFits(o, ids, ts, c, d)
    {
      RecordedPairs(o, first, x, {a, b}, {x, y}, c, d);
      if O.LevelPair({a, b}, o.actionTable, c, d) {
        TwoOnLevel(o.actionTable, {a, b}, a, b, c, d);
        assert Names(ConflictItem(ids[c], ids[d], ids[x]), inner);
        assert Names(ConflictItem(ids[c], ids[d], ids[x]), ts[0]);
      } else {
        TwoOnLevel(o.actionTable, {x, y}, x, y, c, d);
        assert Names(ConflictItem(ids[c], ids[d], ids[first]), ts[0]);
      }
    }
    var c, d := PairOnLevel(o, first, x, {a, b}, {x, y}, x, y);
    assert PairHere(o, ids, ts[0], c, d, first);
    c, d := PairOnLevel(o, first, x, {a, b}, {x, y}, a, b);
    assert PairHere(o, ids, inner, c, d, x);
    assert PairsCover(o, ids, Leaf(ids[a])) && PairsCover(o, ids, Leaf(ids[b])) && PairsCover(o, ids, inner);
    assert PairsCover(o, ids, ts[0].left) && PairsCover(o, ids, ts[0]);
  }

  lemma RecordedPairs(o: O.Orchestrator, first: string, x: string, kids: set<string>, level: set<string>, a: string, b: string)
    requires StarOrchestrated(o, first, x, kids, level) && O.HasPair(o.pairToConflicts, a, b)
    ensures kids <= o.actionTable.Keys && level <= o.actionTable.Keys
    ensures O.LevelPair(kids, o.actionTable, a, b) || O.LevelPair(level, o.actionTable, a, b)
  {
  }

  /** y beside z, and the chain from x to a beside both. */
  function Beside(ids: map<string, int>, first: string, x: string, a: string, y: string, z: string): seq<Tree>
    requires {first, x, a, y, z} <= ids.Keys
  {
    [Node(ids[first], Leaf(ids[y]), Leaf(ids[z])), Chain(ids[x], Leaf(ids[a]))]
  }

  lemma BesideFits(o: O.Orchestrator, ids: map<string, int>, first: string, x: string, a: string, y: string, z: string)
    requires StarOrchestrated(o, first, x, {a}, {y, z}) && Apart(first, x, {a}, {y, z}) && y != z
    requires {first, x, a, y, z} <= ids.Keys && {y, z} <= o.actionTable.Keys && EitherWay(o.actionTable, y, z)
    ensures FitsForest(o, ids, Beside(ids, first, x, a, y, z))
  {
    hide Parallelizable, EitherWay, StarOrchestrated;
    StarParents(o, first, x, {a}, {y, z});
    var ts := Beside(ids, first, x, a, y, z);
    forall c, d | O.HasPair(o.pairToConflicts, c, d)
      ensures PairFits(o, ids, ts, c, d)
    {
      RecordedPairs(o, first, x, {a}, {y, z}, c, d);
      assert !O.LevelPair({a}, o.actionTable, c, d);
      TwoOnLevel(o.actionTable, {y, z}, y, z, c, d);
      assert NamesOne(ConflictItem(ids[c], ids[d], ids[first]), ts) by {
        assert Names(ConflictItem(ids[c], ids[d], ids[first]), ts[0]);
      }
    }
    var c, d := PairOnLevel(o, first, x, {a}, {y, z}, y, z);
    assert PairHere(o, ids, ts[0], c, d, first);
    assert PairsCover(o, ids, Leaf(ids[y])) && PairsCover(o, ids, Leaf(ids[z])) && PairsCover(o, ids, ts[0]);
    assert PairsCover(o, ids, ts[1].below) && PairsCover(o, ids, ts[1]);
  }

  /** A first function that hands every packet on as it is, as the packet
      generator does. */
  const PASSES_ON: Profile := Profile({}, {}, false)

  ghost predicate AllDifferent(first: string, x: string, a: string, y: string, z: string) {
    Apart(first, x, {a}, {y, z}) && y != z && x != y && x != z
  }

  lemma BesideIsDistinct(ids: map<string, int>, first: string, x: string, a: string, y: string, z: string)
    requires F.DistinctIds(ids, {first, x, a, y, z}) && AllDifferent(first, x, a, y, z)
    ensures DistinctForest(Beside(ids, first, x, a, y, z))
  {
    var ts := Beside(ids, first, x, a, y, z);
    assert Ids(Leaf(ids[y])) == {ids[y]} && Ids(Leaf(ids[z])) == {ids[z]} && Ids(Leaf(ids[a])) == {ids[a]};
    assert Ids(ts[0]) == {ids[first], ids[y], ids[z]};
    assert ts[1].below == Leaf(ids[a]) && Ids(ts[1]) == {ids[x], ids[a]};
    assert forall n, k :: n in {first, x, a, y, z} && k in {first, x, a, y, z} && n != k ==> ids[n] != ids[k];
  }

  lemma BesideCounts(items: seq<ConflictItem>, ids: map<string, int>, first: string, x: string, a: string, y: string, z: string,
                     row: int -> Profile)
    requires {first, x, a, y, z} <= ids.Keys && ids[a] != ids[first]
    ensures AllCounted(items, Beside(ids, first, x, a, y, z), row) <==>
            row(ids[x]).writeSet <= row(ids[a]).writeSet || ids[a] < ids[first]
  {
    var ts := Beside(ids, first, x, a, y, z);
    assert Key(ts[0]) == ids[first] && Key(ts[1]) == ids[a];
    ChainlessHidesNothing(items, ts[0], row);
    assert ts[1].below == Leaf(ids[a]) && TreeProfile(ts[1].below, row) == row(ids[a]);
    assert TreeProfile(ts[1], row).writeSet == row(ids[x]).writeSet + row(ids[a]).writeSet;
    assert Counted(ts[1].below, row) == row(ids[a]).writeSet == Counted(ts[1], row);
    assert Hidden(ts[1], row) == row(ids[x]).writeSet - row(ids[a]).writeSet;
    assert Hidden(ts[1], row) == {} <==> row(ids[x]).writeSet <= row(ids[a]).writeSet by {
      assert forall f :: f in row(ids[x]).writeSet && f !in row(ids[a]).writeSet ==> f in Hidden(ts[1], row);
    }
    assert NothingHidden(items, ts[1].below, row);
    assert FirstHides(ts, row) <==> (ids[first] < ids[a] ==> Hidden(ts[1], row) == {});
    forall i | 0 <= i < |ts|
      ensures NothingHidden(items, ts[i], row)
    {
    }
  }

  /** With a first function that hands packets on as they are: the merge of
      this service is always the sequential run exactly if x writes nothing
      that a does not write, or a has a smaller id than the first function. */
  lemma BesideExactly(o: O.Orchestrator, ids: map<string, int>, items: seq<ConflictItem>, first: string, x: string,
                      a: string, y: string, z: string,
                      row: int -> Profile, writes: WriteTable)
    requires {first, x, a, y, z} <= ids.Keys && DifferentIds(ids) && AllDifferent(first, x, a, y, z)
    requires FitsForest(o, ids, Beside(ids, first, x, a, y, z))
    requires O.ConflictsListed(items, o.pairToConflicts, o.parents, ids)
    requires row(ids[first]) == PASSES_ON
    requires RowsFit(Beside(ids, first, x, a, y, z), row, writes) && IndependentAll(Beside(ids, first, x, a, y, z), row)
    ensures ForestAlwaysSequential(o, ids, Beside(ids, first, x, a, y, z), row, writes) <==>
            row(ids[x]).writeSet <= row(ids[a]).writeSet || ids[a] < ids[first]
  {
    hide *;
    SomeDiffer(ids, {first, x, a, y, z});
    BesideIsDistinct(ids, first, x, a, y, z);
    FirstIsNotA(ids, first, x, a, y, z);
    ForestServiceExactly(o, ids, items, Beside(ids, first, x, a, y, z), row, writes);
    BesideCounts(items, ids, first, x, a, y, z, row);
  }

  lemma SomeDiffer(ids: map<string, int>, names: set<string>)
    requires DifferentIds(ids) && names <= ids.Keys
    ensures F.DistinctIds(ids, names)
  {
  }

  lemma FirstIsNotA(ids: map<string, int>, first: string, x: string, a: string, y: string, z: string)
    requires F.DistinctIds(ids, {first, x, a, y, z}) && AllDifferent(first, x, a, y, z)
    ensures {first, x, a, y, z} <= ids.Keys && ids[a] != ids[first] && Beside(ids, first, x, a, y, z) != []
  {
    assert first in {first, x, a, y, z} && a in {first, x, a, y, z};
  }

  // ----- The shipped functions -----

  /** The rows of the shipped functions, by name. */
  const SHIPPED: map<string, Row> :=
    map["proxy" := RuntimeRow(proxy), "dnf_loadbalancer" := RuntimeRow(dnf_loadbalancer),
        "compressor" := RuntimeRow(compressor), "dnf_firewall" := RuntimeRow(dnf_firewall)]

  /** What the function at a node may do. The packet generator has no row. */
  function NodeProfile(nf: NF): Profile {
    if nf == pktgen then PASSES_ON else ProfileOf(RuntimeRow(nf))
  }

  lemma RowProfile(dip: string, dport: string, drop: string, payload: string)
    ensures var s := ProfileOf(RowOf(dip, dport, drop, payload));
      && s.drops == (drop == "T") && !Resizes(RowOf(dip, dport, drop, payload))
      && (forall f: Field :: f in s.readSet <==> MarkOfField(f, dip, dport, payload) != "null")
      && (forall f: Field :: f in s.writeSet <==>
            MarkOfField(f, dip, dport, payload) != "null" && MarkOfField(f, dip, dport, payload) != "R")
  {
    hide Mark, LOCATIONS;
    RowMarks(dip, dport, drop, payload);
    KnownLocations();
    var row := RowOf(dip, dport, drop, payload);
    forall f: Field
      ensures Mark(row, LocationOf(f)) == MarkOfField(f, dip, dport, payload)
    {
      assert Mark(row, LocationOf(f)) == row[Place(LocationOf(f))].mark;
    }
  }

  lemma ShippedProfiles()
    ensures ProfileOf(RuntimeRow(proxy)) == Profile({SIP, DIP, SPORT, DPORT}, {DIP, DPORT}, false) && !Resizes(RuntimeRow(proxy))
    ensures ProfileOf(RuntimeRow(compressor)) == Profile({SIP, SPORT, PAYLOAD}, {PAYLOAD}, false) && !Resizes(RuntimeRow(compressor))
    ensures ProfileOf(RuntimeRow(dnf_loadbalancer)) == Profile({SIP, DIP, SPORT, DPORT}, {}, true)
    ensures ProfileOf(RuntimeRow(dnf_firewall)) == Profile({SIP, SPORT}, {}, false) && !Resizes(RuntimeRow(dnf_firewall))
  {
    hide ProfileOf, Resizes;
    RowProfile("R/W", "R/W", "null", "null");
    RowProfile("null", "null", "null", "R/W");
    RowProfile("R", "R", "T", "null");
    RowProfile("null", "null", "null", "null");
  }

  /** What the check says of them. */
  lemma ShippedPairs()
    ensures !Parallelizable(RuntimeRow(proxy), RuntimeRow(dnf_loadbalancer))
    ensures !Parallelizable(RuntimeRow(dnf_loadbalancer), RuntimeRow(proxy))
    ensures !Parallelizable(RuntimeRow(dnf_loadbalancer), RuntimeRow(compressor))
    ensures Parallelizable(RuntimeRow(dnf_firewall), RuntimeRow(dnf_loadbalancer))
    ensures Parallelizable(RuntimeRow(proxy), RuntimeRow(compressor))
    ensures Parallelizable(RuntimeRow(compressor), RuntimeRow(dnf_firewall))
  {
    hide Parallelizable, WellFormedRow, ProfileOf, Resizes, RuntimeRow;
    ShippedProfiles();
    TablesAgree(proxy);
    TablesAgree(compressor);
    TablesAgree(dnf_loadbalancer);
    TablesAgree(dnf_firewall);
    CheckByProfiles(RuntimeRow(proxy), RuntimeRow(dnf_loadbalancer));
    CheckByProfiles(RuntimeRow(dnf_loadbalancer), RuntimeRow(proxy));
    CheckByProfiles(RuntimeRow(dnf_loadbalancer), RuntimeRow(compressor));
    CheckByProfiles(RuntimeRow(dnf_firewall), RuntimeRow(dnf_loadbalancer));
    CheckByProfiles(RuntimeRow(proxy), RuntimeRow(compressor));
    CheckByProfiles(RuntimeRow(compressor), RuntimeRow(dnf_firewall));
    assert DIP in ProfileOf(RuntimeRow(proxy)).writeSet * ProfileOf(RuntimeRow(dnf_loadbalancer)).readSet;
  }

  function NodeMap(nfs: seq<NF>): map<int, NF> {
    map i | 0 <= i < |nfs| :: nfs[i]
  }

  /** Node i runs the i-th function, within its row. */
  ghost predicate RunsNodes(service: Service, nfs: seq<NF>) {
    forall i :: 0 <= i < |nfs| ==>
      service.row(i) == NodeProfile(nfs[i]) && Respects(NodeBehaviour(i, service), NodeProfile(nfs[i]))
  }

  lemma NodeIsFaithful(service: Service, nfs: seq<NF>, i: nat)
    requires RunsNodes(service, nfs) && i < |nfs|
    ensures FaithfulAt(i, service, WritesOfNodes(NodeMap(nfs)))
  {
    hide Respects, ProfileOf, RuntimeRow;
    ShippedProfiles();
    if nfs[i] != pktgen {
      TablesAgree(nfs[i]);
    }
    assert i in NodeMap(nfs);
  }

  // ----- The repository's own example of two levels -----

  const COMPLEX_NAMES: seq<string> := ["dnf_firewall", "pktgen", "dnf_loadbalancer", "proxy", "compressor"]
  const COMPLEX_NODES: seq<NF> := [dnf_firewall, pktgen, dnf_loadbalancer, proxy, compressor]
  const COMPLEX_IDS: map<string, int> :=
    map["dnf_firewall" := 0, "pktgen" := 1, "dnf_loadbalancer" := 2, "proxy" := 3, "compressor" := 4]
  const COMPLEX_FOREST: seq<Tree> := [Node(1, Leaf(0), Node(2, Leaf(3), Leaf(4)))]

  lemma ShippedNames()
    ensures SHIPPED.Keys == {"proxy", "dnf_loadbalancer", "compressor", "dnf_firewall"}
    ensures SHIPPED["proxy"] == RuntimeRow(proxy) && SHIPPED["dnf_loadbalancer"] == RuntimeRow(dnf_loadbalancer)
    ensures SHIPPED["compressor"] == RuntimeRow(compressor) && SHIPPED["dnf_firewall"] == RuntimeRow(dnf_firewall)
  {
    hide RuntimeRow;
    assert |"proxy"| == 5 && |"dnf_loadbalancer"| == 16 && |"compressor"| == 10 && |"dnf_firewall"| == 12;
  }

  lemma ComplexNames()
    ensures COMPLEX_IDS.Keys == {"dnf_firewall", "pktgen", "dnf_loadbalancer", "proxy", "compressor"}
    ensures COMPLEX_IDS["dnf_firewall"] == 0 && COMPLEX_IDS["pktgen"] == 1 && COMPLEX_IDS["dnf_loadbalancer"] == 2
    ensures COMPLEX_IDS["proxy"] == 3 && COMPLEX_IDS["compressor"] == 4
    ensures forall n :: n in COMPLEX_NAMES ==> n in COMPLEX_IDS
    ensures Apart("pktgen", "dnf_loadbalancer", {"proxy", "compressor"}, {"dnf_loadbalancer", "dnf_firewall"})
    ensures F.SetOf(["proxy", "compressor"]) == {"proxy", "compressor"}
    ensures Constrained([("dnf_firewall", "dnf_loadbalancer")]) == {"dnf_loadbalancer", "dnf_firewall"}
  {
    assert |"proxy"| == 5 && |"dnf_loadbalancer"| == 16 && |"compressor"| == 10 && |"dnf_firewall"| == 12 && |"pktgen"| == 6;
    var d := ("dnf_firewall", "dnf_loadbalancer");
    assert d in [d] && forall e :: e in [d] ==> e == d;
  }

  /** The example's constraints give a list for a tree of two levels. */
  method OrchestrateComplexInput(ips: seq<string>) returns (o: O.Orchestrator, items: seq<ConflictItem>)
    requires ips != []
    ensures fresh(o) && ListFor(items, COMPLEX_FOREST)
  {
    hide *;
    ShippedNames();
    ShippedPairs();
    ComplexNames();
    ComplexConstraints();
    o, items := OrchestrateStar(SHIPPED, COMPLEX_NAMES, "pktgen", "dnf_loadbalancer", ["proxy", "compressor"],
                                [("dnf_firewall", "dnf_loadbalancer")], ips, COMPLEX_IDS);
    TwoLevelFits(o, COMPLEX_IDS, "pktgen", "dnf_loadbalancer", "proxy", "compressor", "dnf_firewall");
    ComplexForest();
    OrchestratedListFor(o, COMPLEX_IDS, items, COMPLEX_FOREST);
  }

  lemma ComplexConstraints()
    ensures forall n :: n in ["proxy", "compressor"] ==> n == "proxy" || n == "compressor"
    ensures forall n :: n in {"proxy", "compressor", "dnf_loadbalancer", "dnf_firewall", "pktgen"} ==> n in COMPLEX_NAMES
    ensures forall d :: d in [("dnf_firewall", "dnf_loadbalancer")] ==> d == ("dnf_firewall", "dnf_loadbalancer")
    ensures "dnf_firewall" != "dnf_loadbalancer" && "proxy" != "compressor"
    ensures EitherWay(SHIPPED, "proxy", "compressor") && EitherWay(SHIPPED, "dnf_loadbalancer", "dnf_firewall")
  {
    hide Parallelizable, RuntimeRow;
    ShippedNames();
    ShippedPairs();
    assert |"proxy"| == 5 && |"dnf_loadbalancer"| == 16 && |"compressor"| == 10 && |"dnf_firewall"| == 12;
    assert COMPLEX_NAMES[0] == "dnf_firewall" && COMPLEX_NAMES[1] == "pktgen" && COMPLEX_NAMES[2] == "dnf_loadbalancer";
    assert COMPLEX_NAMES[3] == "proxy" && COMPLEX_NAMES[4] == "compressor";
  }

  lemma ComplexForest()
    ensures {"pktgen", "dnf_loadbalancer", "proxy", "compressor", "dnf_firewall"} <= COMPLEX_IDS.Keys
    ensures TwoLevel(COMPLEX_IDS, "pktgen", "dnf_loadbalancer", "proxy", "compressor", "dnf_firewall") == COMPLEX_FOREST
  {
    ComplexNames();
  }

  /** And whatever the functions do within their rows, what the merger sends
      on is what they would have made of the packet one after the other. */
  lemma ComplexInputIsSequential(items: seq<ConflictItem>, service: Service, p: Wire)
    requires ListFor(items, COMPLEX_FOREST) && RunsNodes(service, COMPLEX_NODES)
    ensures SequentialFor(items, COMPLEX_FOREST, service, WritesOfNodes(NodeMap(COMPLEX_NODES)), p)
  {
    hide *;
    ComplexIsDistinct();
    ComplexIsFaithful(service);
    ChainlessForest(items, COMPLEX_FOREST, service.row);
    MergedServiceIsSequential(items, COMPLEX_FOREST, service, WritesOfNodes(NodeMap(COMPLEX_NODES)), p);
    IsSequential(items, COMPLEX_FOREST, service, WritesOfNodes(NodeMap(COMPLEX_NODES)), p);
  }

  lemma ComplexIsDistinct()
    ensures COMPLEX_FOREST != [] && DistinctForest(COMPLEX_FOREST)
    ensures forall i :: 0 <= i < |COMPLEX_FOREST| ==> Chainless(COMPLEX_FOREST[i])
    ensures Ids(COMPLEX_FOREST[0]) == {0, 1, 2, 3, 4}
  {
    var inner := COMPLEX_FOREST[0].right;
    assert Ids(Leaf(0)) == {0} && Ids(inner) == {2, 3, 4} && Distinct(inner) && Chainless(inner);
    assert Distinct(COMPLEX_FOREST[0]) && Chainless(COMPLEX_FOREST[0]);
  }

  lemma ComplexIsFaithful(service: Service)
    requires RunsNodes(service, COMPLEX_NODES)
    ensures FaithfulForest(COMPLEX_FOREST, service, WritesOfNodes(NodeMap(COMPLEX_NODES)))
    ensures IndependentForest(COMPLEX_FOREST, service.row)
  {
    hide FaithfulAt, ProfileOf, RuntimeRow, Respects;
    ComplexIsDistinct();
    ShippedProfiles();
    var t := COMPLEX_FOREST[0];
    forall id | id in Ids(t)
      ensures FaithfulAt(id, service, WritesOfNodes(NodeMap(COMPLEX_NODES)))
    {
      NodeIsFaithful(service, COMPLEX_NODES, id);
    }
    assert service.row(0) == NodeProfile(COMPLEX_NODES[0]) && service.row(3) == NodeProfile(COMPLEX_NODES[3]);
    assert service.row(4) == NodeProfile(COMPLEX_NODES[4]);
    assert Independent(t.right, service.row);
    assert TreeProfile(t.left, service.row).writeSet == {};
    assert Independent(t, service.row);
  }

  // ----- An order constraint beside a pair of priorities -----

  const CHAIN_NAMES: seq<string> := ["pktgen", "proxy", "dnf_loadbalancer", "compressor", "dnf_firewall"]
  const CHAIN_NODES: seq<NF> := [pktgen, proxy, dnf_loadbalancer, compressor, dnf_firewall]
  const CHAIN_IDS: map<string, int> :=
    map["pktgen" := 0, "proxy" := 1, "dnf_loadbalancer" := 2, "compressor" := 3, "dnf_firewall" := 4]
  const CHAIN_FOREST: seq<Tree> := [Node(0, Leaf(3), Leaf(4)), Chain(1, Leaf(2))]

  lemma ChainNames()
    ensures CHAIN_IDS.Keys == {"dnf_firewall", "pktgen", "dnf_loadbalancer", "proxy", "compressor"}
    ensures CHAIN_IDS["pktgen"] == 0 && CHAIN_IDS["proxy"] == 1 && CHAIN_IDS["dnf_loadbalancer"] == 2
    ensures CHAIN_IDS["compressor"] == 3 && CHAIN_IDS["dnf_firewall"] == 4
    ensures forall n :: n in CHAIN_NAMES ==> n in CHAIN_IDS
    ensures Apart("pktgen", "proxy", {"dnf_loadbalancer"}, {"compressor", "dnf_firewall"}) && "compressor" != "dnf_firewall"
    ensures F.SetOf(["dnf_loadbalancer"]) == {"dnf_loadbalancer"}
    ensures Constrained([("compressor", "dnf_firewall")]) == {"compressor", "dnf_firewall"}
  {
    assert |"proxy"| == 5 && |"dnf_loadbalancer"| == 16 && |"compressor"| == 10 && |"dnf_firewall"| == 12 && |"pktgen"| == 6;
    var d := ("compressor", "dnf_firewall");
    assert d in [d] && forall e :: e in [d] ==> e == d;
  }

  lemma ChainConstraints()
    ensures forall n :: n in ["dnf_loadbalancer"] ==> n == "dnf_loadbalancer"
    ensures forall n :: n in {"proxy", "compressor", "dnf_loadbalancer", "dnf_firewall", "pktgen"} ==> n in CHAIN_NAMES
    ensures forall d :: d in [("compressor", "dnf_firewall")] ==> d == ("compressor", "dnf_firewall")
    ensures EitherWay(SHIPPED, "compressor", "dnf_firewall")
  {
    hide Parallelizable, RuntimeRow;
    ShippedNames();
    ShippedPairs();
    assert CHAIN_NAMES[0] == "pktgen" && CHAIN_NAMES[1] == "proxy" && CHAIN_NAMES[2] == "dnf_loadbalancer";
    assert CHAIN_NAMES[3] == "compressor" && CHAIN_NAMES[4] == "dnf_firewall";
  }

  /** The load balancer must come after the proxy, whose writes it reads; the
      compressor and the firewall may run side by side. */
  method OrchestrateChainInput(ips: seq<string>) returns (o: O.Orchestrator, items: seq<ConflictItem>)
    requires ips != []
    ensures fresh(o) && ListFor(items, CHAIN_FOREST)
  {
    hide *;
    ShippedNames();
    ShippedPairs();
    ChainNames();
    ChainConstraints();
    o, items := OrchestrateStar(SHIPPED, CHAIN_NAMES, "pktgen", "proxy", ["dnf_loadbalancer"],
                                [("compressor", "dnf_firewall")], ips, CHAIN_IDS);
    BesideFits(o, CHAIN_IDS, "pktgen", "proxy", "dnf_loadbalancer", "compressor", "dnf_firewall");
    ChainForest();
    OrchestratedListFor(o, CHAIN_IDS, items, CHAIN_FOREST);
  }

  lemma ChainForest()
    ensures {"pktgen", "proxy", "dnf_loadbalancer", "compressor", "dnf_firewall"} <= CHAIN_IDS.Keys
    ensures Beside(CHAIN_IDS, "pktgen", "proxy", "dnf_loadbalancer", "compressor", "dnf_firewall") == CHAIN_FOREST
  {
    ChainNames();
  }

  /** The proxy's rewriting of the destination is lost: for every list of that
      service, all functions within their rows and every packet that no
      function drops, the merged packet has the address the packet was sent
      with, and the sequential run the one the proxy wrote. */
  lemma ChainInputLosesRewrite(items: seq<ConflictItem>, service: Service, p: Wire, f: Field)
    requires ListFor(items, CHAIN_FOREST) && RunsNodes(service, CHAIN_NODES) && f in {DIP, DPORT}
    requires !IsNull(RunForest(CHAIN_FOREST, service, p))
    ensures var writes := WritesOfNodes(NodeMap(CHAIN_NODES));
      && Irreflexive(items) && ForestLeafPackets(CHAIN_FOREST, service, p) != map[]
      && MergeOutcome(items, writes, ForestLeafPackets(CHAIN_FOREST, service, p)).Delivered?
      && MergeOutcome(items, writes, ForestLeafPackets(CHAIN_FOREST, service, p)).packet.Get(f) == p.Get(f)
    ensures RunForest(CHAIN_FOREST, service, p).Get(f) == service.run(1, p).Get(f)
  {
    hide *;
    ChainIsDistinct();
    ChainIsFaithful(service);
    ChainHides(items, service, f);
    HiddenBehindFirst(items, CHAIN_FOREST, service, WritesOfNodes(NodeMap(CHAIN_NODES)), p, f, 0, 1);
    ProxyIsLastToWrite(service, p, f);
  }

  lemma ChainIsDistinct()
    ensures CHAIN_FOREST != [] && DistinctForest(CHAIN_FOREST) && |CHAIN_FOREST| == 2
    ensures Key(CHAIN_FOREST[0]) < Key(CHAIN_FOREST[1])
    ensures Ids(CHAIN_FOREST[0]) == {0, 3, 4} && Ids(CHAIN_FOREST[1]) == {1, 2}
  {
    var t, u := CHAIN_FOREST[0], CHAIN_FOREST[1];
    assert u.below == Leaf(2) && Ids(Leaf(2)) == {2} && Ids(Leaf(3)) == {3} && Ids(Leaf(4)) == {4};
    assert Distinct(t) && Distinct(u.below) && Distinct(u);
  }

  lemma ChainIsFaithful(service: Service)
    requires RunsNodes(service, CHAIN_NODES)
    ensures FaithfulForest(CHAIN_FOREST, service, WritesOfNodes(NodeMap(CHAIN_NODES)))
    ensures IndependentForest(CHAIN_FOREST, service.row)
  {
    hide FaithfulAt, ProfileOf, RuntimeRow, Respects;
    ChainIsDistinct();
    ShippedProfiles();
    ChainProfiles(service);
    forall i, id | 0 <= i < |CHAIN_FOREST| && id in Ids(CHAIN_FOREST[i])
      ensures FaithfulAt(id, service, WritesOfNodes(NodeMap(CHAIN_NODES)))
    {
      NodeIsFaithful(service, CHAIN_NODES, id);
    }
    assert Independent(CHAIN_FOREST[0], service.row);
    assert Independent(CHAIN_FOREST[1].below, service.row) && Independent(CHAIN_FOREST[1], service.row);
  }

  lemma ChainProfiles(service: Service)
    requires RunsNodes(service, CHAIN_NODES)
    ensures service.row(0).writeSet == {} && service.row(1).writeSet == {DIP, DPORT} && service.row(2).writeSet == {}
    ensures service.row(3).writeSet == {PAYLOAD} && service.row(4).readSet == {SIP, SPORT}
    ensures TreeProfile(CHAIN_FOREST[0], service.row).writeSet == {PAYLOAD}
    ensures TreeProfile(CHAIN_FOREST[1], service.row).readSet == {SIP, DIP, SPORT, DPORT}
    ensures TreeProfile(CHAIN_FOREST[1], service.row).writeSet == {DIP, DPORT}
    ensures Counted(CHAIN_FOREST[1], service.row) == {}
  {
    hide ProfileOf, RuntimeRow, Respects;
    ShippedProfiles();
    assert service.row(0) == NodeProfile(CHAIN_NODES[0]) && service.row(1) == NodeProfile(CHAIN_NODES[1]);
    assert service.row(2) == NodeProfile(CHAIN_NODES[2]) && service.row(3) == NodeProfile(CHAIN_NODES[3]);
    assert service.row(4) == NodeProfile(CHAIN_NODES[4]);
    var t, u := CHAIN_FOREST[0], CHAIN_FOREST[1];
    assert TreeProfile(t.left, service.row) == service.row(3) && TreeProfile(t.right, service.row) == service.row(4);
    assert u.below == Leaf(2) && TreeProfile(u.below, service.row) == service.row(2) && Counted(u.below, service.row) == {};
  }

  lemma ChainHides(items: seq<ConflictItem>, service: Service, f: Field)
    requires RunsNodes(service, CHAIN_NODES) && f in {DIP, DPORT}
    ensures NothingGivesWay(items, CHAIN_FOREST, service.row) && f in Hidden(CHAIN_FOREST[1], service.row)
  {
    hide RunsNodes;
    ChainProfiles(service);
    assert Chainless(CHAIN_FOREST[0]) && CHAIN_FOREST[1].below == Leaf(2);
    ChainlessHidesNothing(items, CHAIN_FOREST[0], service.row);
    assert NothingHidden(items, CHAIN_FOREST[1].below, service.row);
  }

  /** The load balancer passes on what the proxy has written. */
  lemma ProxyIsLastToWrite(service: Service, p: Wire, f: Field)
    requires RunsNodes(service, CHAIN_NODES) && f in {DIP, DPORT}
    requires !IsNull(RunTree(CHAIN_FOREST[1], service, p))
    ensures RunTree(CHAIN_FOREST[1], service, p).Get(f) == service.run(1, p).Get(f)
  {
    hide ProfileOf, RuntimeRow, IsNull;
    var q := service.run(1, p);
    assert CHAIN_FOREST[1].below == Leaf(2) && RunTree(CHAIN_FOREST[1], service, p) == RunTree(Leaf(2), service, q) == service.run(2, q);
    ChainProfiles(service);
    assert NodeBehaviour(2, service)(q) == service.run(2, q);
    assert AgreeOutside(q, service.run(2, q), {}) by {
      assert Respects(NodeBehaviour(2, service), NodeProfile(CHAIN_NODES[2]));
      assert service.row(2) == NodeProfile(CHAIN_NODES[2]);
    }
  }
}

/** Exactly which services of a first function and parallel branches the
    orchestrator and the merger together turn into the sequential run, and
    which of two branches that write the same field wins. */
module FlatBoundary {
  import opened Conservation
  import opened Packets
  import opened MergeSpec
  import opened MergeForest
  import opened NetworkFunctions
  import opened ServiceForest
  import opened HiddenWrites
  import opened Parallelism
  import opened GraphPaths
  import opened FlatService
  import O = Orchestrator

  // ----- Branches that write nothing -----

  /** However many branches there are and whatever is lost: if none of them
      writes, the merge is the sequential run. */
  lemma SilentBranches(items: seq<ConflictItem>, bs: seq<int>, service: Service, writes: WriteTable, q: Wire)
    requires Irreflexive(items) && NoneTwice(bs) && bs != []
    requires forall b {:trigger FaithfulAt(b, service, writes)} :: b in bs ==> FaithfulAt(b, service, writes)
    requires forall b :: b in bs ==> service.row(b).writeSet == {}
    ensures SequentialFor(items, BranchTrees(bs), service, writes, q)
  {
    hide *;
    var ts := BranchTrees(bs);
    var m := ForestLeafPackets(ts, service, q);
    BranchesDistinct(bs);
    BranchesFaithful(bs, service, writes);
    SilentIsIndependent(bs, service);
    SomeBranch(bs);
    SomePacket(ts, service, q);
    NullForest(ts, service, writes, q);
    DropTheorem(items, writes, m);
    if !IsNull(RunForest(ts, service, q)) {
      NoneNull(m);
      SilentPackets(bs, service, writes, q, m);
      PacketCloses(q);
      MergeKeeps(items, writes, m, IsPacket(q));
      SilentRun(bs, service, writes, q);
      IsThatPacket(MergeAll(items, writes, m), q);
      NotNullDelivers(RunForest(ts, service, q));
    } else {
      NullDrops(RunForest(ts, service, q));
    }
    IsSequential(items, ts, service, writes, q);
  }

  lemma NoneNull(m: LiveMap<Bytes>)
    requires !(exists k :: k in m && IsNull(m[k].fields))
    ensures forall k :: k in m ==> !IsNull(m[k].fields)
  {
  }

  lemma IsThatPacket(a: Info<Bytes>, q: Wire)
    requires IsPacket(q)(a)
    ensures a.fields == q
  {
  }

  lemma SomeBranch(bs: seq<int>)
    requires bs != []
    ensures BranchTrees(bs) != []
  {
  }

  lemma SilentIsIndependent(bs: seq<int>, service: Service)
    requires forall b :: b in bs ==> service.row(b).writeSet == {}
    ensures IndependentForest(BranchTrees(bs), service.row)
  {
    var ts := BranchTrees(bs);
    assert forall i :: 0 <= i < |ts| ==> TreeProfile(ts[i], service.row).writeSet == {};
  }

  lemma SilentPackets(bs: seq<int>, service: Service, writes: WriteTable, q: Wire, m: LiveMap<Bytes>)
    requires NoneTwice(bs) && bs != [] && m == ForestLeafPackets(BranchTrees(bs), service, q)
    requires forall b {:trigger FaithfulAt(b, service, writes)} :: b in bs ==> FaithfulAt(b, service, writes)
    requires forall b :: b in bs ==> service.row(b).writeSet == {}
    requires forall k :: k in m ==> !IsNull(m[k].fields)
    ensures !IsNull(q) && AllHave(m, IsPacket(q))
  {
    hide ForestLeafPackets, Respects, IsNull;
    BranchPackets(bs, service, q);
    forall k | k in m
      ensures !IsNull(q) && m[k].fields == q
    {
      assert !IsNull(m[k].fields);
      assert HoldsBranch(m, k, service, q);
      NullStaysNull(k, service, writes, q);
      BranchKeeps(k, service, writes, q);
      AgreeEverywhere(q, service.run(k, q));
    }
    var first := bs[0];
    assert first in bs && first in m;
  }

  lemma NullStaysNull(b: int, service: Service, writes: WriteTable, q: Wire)
    requires FaithfulAt(b, service, writes) && !IsNull(service.run(b, q))
    ensures !IsNull(q)
  {
    assert NodeBehaviour(b, service)(q) == service.run(b, q);
  }

  lemma SilentRun(bs: seq<int>, service: Service, writes: WriteTable, q: Wire)
    requires NoneTwice(bs) && bs != []
    requires forall b {:trigger FaithfulAt(b, service, writes)} :: b in bs ==> FaithfulAt(b, service, writes)
    requires forall b :: b in bs ==> service.row(b).writeSet == {}
    requires !IsNull(RunForest(BranchTrees(bs), service, q))
    ensures RunForest(BranchTrees(bs), service, q) == q
  {
    hide ForestLeafPackets, IsNull, RunForest, FieldAfter;
    var ts := BranchTrees(bs);
    BranchesDistinct(bs);
    BranchesFaithful(bs, service, writes);
    SilentIsIndependent(bs, service);
    ForestRun(ts, service, writes, q);
    forall f: Field
      ensures RunForest(ts, service, q).Get(f) == q.Get(f)
    {
      NoTreeWrites(ts, service, f);
    }
    AgreeEverywhere(RunForest(ts, service, q), q);
  }

  // ----- Lists the orchestrator may produce -----

  lemma {:induction false} AnyOrder(s: set<Edge>) returns (pairs: seq<Edge>)
    ensures O.NoRepeats(pairs) && forall p :: p in pairs <==> p in s
    decreases s
  {
    if s == {} {
      pairs := [];
    } else {
      var p := Pick(s);
      var rest := AnyOrder(s - {p});
      pairs := [p] + rest;
    }
  }

  function Group(s: set<Edge>, major: string): set<Edge> {
    set e | e in s && e.0 == major
  }

  lemma AppendGroup(group: seq<Edge>, rest: seq<Edge>, major: string)
    requires O.NoRepeats(group) && forall p :: p in group ==> p.0 == major
    requires O.NoRepeats(rest) && O.Grouped(rest) && forall p :: p in rest ==> p.0 != major
    ensures O.NoRepeats(group + rest) && O.Grouped(group + rest)
  {
    var all := group + rest;
    assert forall i :: 0 <= i < |group| ==> all[i] in group;
    assert forall i :: |group| <= i < |all| ==> all[i] == rest[i - |group|] && all[i] in rest;
    forall i, j, k | 0 <= i < j < k < |all| && all[i].0 == all[k].0
      ensures all[j].0 == all[i].0
    {
      if i >= |group| {
        assert rest[i - |group|].0 == rest[k - |group|].0;
      }
    }
  }

  /** Any recorded pair may come first. */
  lemma {:induction false} StartingWith(s: set<Edge>, e: Edge) returns (group: seq<Edge>, rest: seq<Edge>)
    requires e in s
    ensures group != [] && group[0] == e && (forall p :: p in group ==> p.0 == e.0) && O.NoRepeats(group)
    ensures O.NoRepeats(rest) && O.Grouped(rest) && forall p :: p in rest <==> p in s && p.0 != e.0
    ensures forall p :: p in group <==> p in s && p.0 == e.0
    decreases s
  {
    var others := AnyOrder(Group(s, e.0) - {e});
    group := [e] + others;
    rest := AnyGroups(s - Group(s, e.0));
  }

  lemma {:induction false} AnyGroups(s: set<Edge>) returns (pairs: seq<Edge>)
    ensures O.NoRepeats(pairs) && O.Grouped(pairs) && forall p :: p in pairs <==> p in s
    decreases s
  {
    if s == {} {
      pairs := [];
    } else {
      var e := Pick(s);
      var group := AnyOrder(Group(s, e.0));
      assert e in Group(s, e.0);
      var rest := AnyGroups(s - Group(s, e.0));
      AppendGroup(group, rest, e.0);
      pairs := group + rest;
    }
  }

  // ----- Two disjoint pairs at the head of the list -----

  /** All packets but b's have the property. */
  ghost predicate OthersHave<T(!new)>(m: LiveMap<T>, b: int, has: Info<T> -> bool) {
    forall k :: k in m && k != b ==> has(m[k])
  }

  /** The first merge takes the parent's place and the second, with b in it,
      finds it taken: what b wrote is gone. */
  lemma PairLost<T(!new)>(first: ConflictItem, idle: seq<ConflictItem>, second: ConflictItem, rest: seq<ConflictItem>,
                          writes: WriteTable, m: LiveMap<T>, b: int, has: Info<T> -> bool)
    requires Irreflexive([first] + idle + ([second] + rest)) && m != map[]
    requires Closed(has) && OthersHave(m, b, has)
    requires Enabled(first, m) && Enabled(second, m) && b in {second.major, second.minor}
    requires {first.major, first.minor} !! {second.major, second.minor}
    requires first.parent == second.parent && first.parent !in m
    requires forall i :: 0 <= i < |idle| ==> idle[i].major == first.major
    ensures has(MergeAll([first] + idle + ([second] + rest), writes, m))
  {
    hide MergeAll, Loop, FoldAll, Pass, Closed, OthersHave, AllHave;
    var items := [first] + idle + ([second] + rest);
    Heads(first, idle, second, rest);
    TwoLost(first, second, writes, m, b, has);
    var one, two := Collapse(first, writes, m), Step(second, writes, Collapse(first, writes, m));
    NothingEnabled(idle, writes, one);
    PassFirst(first, idle, writes, m);
    PassFirst(second, rest, writes, one);
    PassAppend([first] + idle, [second] + rest, writes, m);
    PassKeeps(rest, writes, two, has);
    AfterFirstPass(items, writes, m, has);
  }

  lemma PassFirst<T>(ci: ConflictItem, rest: seq<ConflictItem>, writes: WriteTable, m: LiveMap<T>)
    ensures Pass([ci] + rest, writes, m) == Pass(rest, writes, Step(ci, writes, m))
  {
    assert ([ci] + rest)[1..] == rest;
  }

  lemma Heads(first: ConflictItem, idle: seq<ConflictItem>, second: ConflictItem, rest: seq<ConflictItem>)
    requires Irreflexive([first] + idle + ([second] + rest))
    ensures first.major != first.minor && second.major != second.minor
  {
    var items := [first] + idle + ([second] + rest);
    assert items[0] == first && items[1 + |idle|] == second;
  }

  lemma TwoLost<T(!new)>(first: ConflictItem, second: ConflictItem, writes: WriteTable, m: LiveMap<T>, b: int, has: Info<T> -> bool)
    requires Closed(has) && OthersHave(m, b, has)
    requires first.major != first.minor && second.major != second.minor
    requires Enabled(first, m) && Enabled(second, m) && b in {second.major, second.minor}
    requires {first.major, first.minor} !! {second.major, second.minor}
    requires first.parent == second.parent && first.parent !in m
    ensures first.major !in Collapse(first, writes, m)
    ensures AllHave(Step(second, writes, Collapse(first, writes, m)), has)
  {
    hide Closed, Step;
    var others := m - {second.major, second.minor};
    assert AllHave(others, has);
    StepKeeps(first, writes, others, has);
    SecondRefused(first, second, writes, m);
  }

  lemma SecondRefused<T>(first: ConflictItem, second: ConflictItem, writes: WriteTable, m: LiveMap<T>)
    requires first.major != first.minor && Enabled(first, m) && Enabled(second, m)
    requires {first.major, first.minor} !! {second.major, second.minor}
    requires first.parent == second.parent && first.parent !in m
    ensures first.major !in Collapse(first, writes, m)
    ensures Step(second, writes, Collapse(first, writes, m)) == Step(first, writes, m - {second.major, second.minor})
  {
    hide Merged;
    var one, others := Collapse(first, writes, m), m - {second.major, second.minor};
    SameMerged(first, writes, m, others);
    assert second.major != first.parent && second.minor != first.parent;
    assert Step(second, writes, one) == one - {second.major, second.minor};
    assert one - {second.major, second.minor} == Step(first, writes, others);
  }

  lemma SameMerged<T>(ci: ConflictItem, writes: WriteTable, m: LiveMap<T>, others: LiveMap<T>)
    requires Enabled(ci, m) && Enabled(ci, others) && m[ci.major] == others[ci.major] && m[ci.minor] == others[ci.minor]
    ensures Merged(ci, writes, others) == Merged(ci, writes, m)
  {
  }

  lemma AfterFirstPass<T(!new)>(items: seq<ConflictItem>, writes: WriteTable, m: LiveMap<T>, has: Info<T> -> bool)
    requires Irreflexive(items) && m != map[] && Closed(has) && AllHave(Pass(items, writes, m), has)
    ensures has(MergeAll(items, writes, m))
  {
    var next := Pass(items, writes, m);
    if |next| < |m| {
      LoopKeeps(items, writes, next, has);
    }
    FoldAllKeeps(Loop(items, writes, m), has);
  }

  // ----- Exactly the services that merge to their sequential run -----

  /** A first function and its branches: their names, the graph's ids, and the
      rows and the merger's write table by id. */
  datatype Flat = Flat(names: seq<string>, first: string, ids: map<string, int>, row: int -> Profile, writes: WriteTable)

  ghost predicate RowKept(n: string, rows: map<string, Row>, s: Flat) {
    n in rows && n in s.ids && WellFormedRow(rows[n]) && WellProfiled(ProfileOf(rows[n]))
    && s.row(s.ids[n]) == ProfileOf(rows[n])
    && s.ids[n] in s.writes && s.writes[s.ids[n]] == ProfileOf(rows[n]).writeSet
  }

  /** The orchestrator has arranged the functions as the first one and its
      branches, in an order in which it admits them all. */
  ghost predicate Arranged(o: O.Orchestrator, s: Flat)
    reads o
  {
    s.names != [] && NoneTwice(s.names) && FlatlyOrchestrated(o, s.first, SetOf(s.names))
    && DistinctIds(s.ids, SetOf(s.names) + {s.first})
    && (forall n {:trigger RowKept(n, o.actionTable, s)} :: n in s.names ==> RowKept(n, o.actionTable, s))
    && (forall n :: n in s.names ==> n in o.actionTable && n in s.ids)
    && Admitted(s.names, o.actionTable)
  }

  /** The branches' ids, in the same order. */
  function BranchIds(s: Flat): seq<int>
    requires forall n :: n in s.names ==> n in s.ids
  {
    Numbers(s.names, s.ids)
  }

  ghost predicate AllFaithful(bs: seq<int>, service: Service, writes: WriteTable) {
    forall b {:trigger FaithfulAt(b, service, writes)} :: b in bs ==> FaithfulAt(b, service, writes)
  }

  /** For every list the orchestrator may produce, all functions within their
      rows and every real packet that the first function hands on, the merger
      sends on what the branches would have made of it one after the other. */
  ghost predicate FlatAlwaysSequential(o: O.Orchestrator, s: Flat)
    reads o
    requires forall n :: n in s.names ==> n in s.ids
  {
    forall items: seq<ConflictItem>, service: Service, q: Wire
      {:trigger SequentialFor(items, BranchTrees(BranchIds(s)), service, s.writes, q)} ::
      O.ConflictsListed(items, o.pairToConflicts, o.parents, s.ids) && service.row == s.row
      && AllFaithful(BranchIds(s), service, s.writes) && MakesPackets(service) && WellFormed(q) ==>
        SequentialFor(items, BranchTrees(BranchIds(s)), service, s.writes, q)
  }

  /** No branch writes anything. */
  ghost predicate AllSilent(bs: seq<int>, row: int -> Profile) {
    forall b :: b in bs ==> row(b).writeSet == {}
  }

  lemma OrchestratedIsIrreflexive(o: O.Orchestrator, s: Flat, items: seq<ConflictItem>, m: LiveMap<Bytes>)
    requires Arranged(o, s) && O.ConflictsListed(items, o.pairToConflicts, o.parents, s.ids)
    requires m.Keys == IdsOf(SetOf(s.names), s.ids)
    ensures FlatList(items, m, s.ids[s.first]) && Irreflexive(items)
  {
    hide O.ConflictsListed, FlatList, FlatlyOrchestrated, RowKept, Admitted;
    AdmittedIsMutual(s.names, o.actionTable);
    OrchestratedListIsFlat(o, s.first, SetOf(s.names), s.ids, items, m);
    FlatIsIrreflexive(items, m, s.ids[s.first]);
  }

  /** The branches' packets stand at their ids. */
  lemma PacketKeys(s: Flat, service: Service, q: Wire)
    requires NoneTwice(s.names) && DistinctIds(s.ids, SetOf(s.names) + {s.first}) && forall n :: n in s.names ==> n in s.ids
    ensures NoneTwice(BranchIds(s))
    ensures ForestLeafPackets(BranchTrees(BranchIds(s)), service, q).Keys == IdsOf(SetOf(s.names), s.ids)
    ensures forall k :: k in BranchIds(s) <==> k in IdsOf(SetOf(s.names), s.ids)
  {
    hide ForestLeafPackets;
    NumbersDistinct(s.names, s.ids);
    BranchesDistinct(BranchIds(s));
    assert forall k :: k in ForestLeafIds(BranchTrees(BranchIds(s))) <==> k in IdsOf(SetOf(s.names), s.ids);
  }

  lemma KeptRows(o: O.Orchestrator, s: Flat, service: Service)
    requires Arranged(o, s) && service.row == s.row && AllFaithful(BranchIds(s), service, s.writes)
    ensures forall n {:trigger KeepsToRow(n, o.actionTable, s.ids, service, s.writes)} ::
              n in s.names ==> KeepsToRow(n, o.actionTable, s.ids, service, s.writes)
  {
    hide FlatlyOrchestrated, Admitted, DistinctIds, FaithfulAt, WellFormedRow, ProfileOf;
    forall n | n in s.names
      ensures KeepsToRow(n, o.actionTable, s.ids, service, s.writes)
    {
      assert RowKept(n, o.actionTable, s);
      var i :| 0 <= i < |s.names| && s.names[i] == n;
      assert BranchIds(s)[i] == s.ids[n];
    }
  }

  lemma FewBranches(o: O.Orchestrator, s: Flat, items: seq<ConflictItem>, service: Service, q: Wire)
    requires Arranged(o, s) && |s.names| <= 3 && NoneHidden(BranchIds(s), s.ids[s.first], s.row, s.writes)
    requires NothingShared(s.names, o.actionTable)
    requires O.ConflictsListed(items, o.pairToConflicts, o.parents, s.ids)
    requires service.row == s.row && AllFaithful(BranchIds(s), service, s.writes)
    ensures SequentialFor(items, BranchTrees(BranchIds(s)), service, s.writes, q)
  {
    hide O.ConflictsListed, KeepsToRow, Admitted, NothingShared, FlatlyOrchestrated, NoneHidden, MergeOutcome, RunForest, ForestLeafPackets;
    KeptRows(o, s, service);
    FlatServiceIsSequential(o, s.first, s.names, s.ids, items, service, s.writes, q);
  }

  lemma ManySilent(o: O.Orchestrator, s: Flat, items: seq<ConflictItem>, service: Service, q: Wire)
    requires Arranged(o, s) && AllSilent(BranchIds(s), s.row)
    requires O.ConflictsListed(items, o.pairToConflicts, o.parents, s.ids)
    requires service.row == s.row && AllFaithful(BranchIds(s), service, s.writes)
    ensures SequentialFor(items, BranchTrees(BranchIds(s)), service, s.writes, q)
  {
    hide O.ConflictsListed, FlatList, FlatlyOrchestrated, RowKept, Admitted, SequentialFor;
    PacketKeys(s, service, q);
    OrchestratedIsIrreflexive(o, s, items, ForestLeafPackets(BranchTrees(BranchIds(s)), service, q));
    SilentBranches(items, BranchIds(s), service, s.writes, q);
  }

  // ----- A list for the recorded pairs in a given order -----

  function ItemsOf(pairs: seq<Edge>, ids: map<string, int>, parent: int): (items: seq<ConflictItem>)
    requires forall p :: p in pairs ==> p.0 in ids && p.1 in ids
    ensures |items| == |pairs|
    ensures forall i :: 0 <= i < |pairs| ==> items[i] == ConflictItem(ids[pairs[i].0], ids[pairs[i].1], parent)
  {
    seq(|pairs|, i requires 0 <= i < |pairs| => ConflictItem(ids[pairs[i].0], ids[pairs[i].1], parent))
  }

  function PairSet(conflicts: O.ConflictMap): (s: set<Edge>)
    ensures forall p :: p in s <==> O.HasPair(conflicts, p.0, p.1)
  {
    set a, b | a in conflicts && b in conflicts[a] :: (a, b)
  }

  /** Every grouped sequence of the recorded pairs is one the orchestrator may list. */
  lemma AnyGroupedList(o: O.Orchestrator, s: Flat, pairs: seq<Edge>)
    requires Arranged(o, s) && O.NoRepeats(pairs) && O.Grouped(pairs)
    requires forall p :: p in pairs <==> p in PairSet(o.pairToConflicts)
    ensures forall p :: p in pairs ==> p.0 in s.ids && p.1 in s.ids
    ensures O.ConflictsListed(ItemsOf(pairs, s.ids, s.ids[s.first]), o.pairToConflicts, o.parents, s.ids)
  {
    hide *;
    ParentsOfAll(o, s);
    PairsAreBranches(o, s, pairs);
    IdsKnown(o, s, pairs);
    var parent := s.ids[s.first];
    var parentOf := map n | n in s.names :: parent;
    ItemsFit(pairs, s.ids, parent, parentOf);
    forall a, b
      ensures (a, b) in pairs <==> O.HasPair(o.pairToConflicts, a, b)
    {
      assert (a, b).0 == a && (a, b).1 == b;
    }
    ListedInThatOrder(o, s, ItemsOf(pairs, s.ids, parent), pairs, parentOf);
  }

  lemma ListedInThatOrder(o: O.Orchestrator, s: Flat, items: seq<ConflictItem>, pairs: seq<Edge>, parentOf: map<string, int>)
    requires O.NoRepeats(pairs) && O.Grouped(pairs) && O.ItemsFor(items, pairs, s.ids, parentOf)
    requires forall a, b :: (a, b) in pairs <==> O.HasPair(o.pairToConflicts, a, b)
    requires forall a :: a in parentOf ==> a in o.parents && O.ParentId(o.parents[a], s.ids, parentOf[a])
    ensures O.ConflictsListed(items, o.pairToConflicts, o.parents, s.ids)
  {
    hide O.NoRepeats, O.Grouped, O.ItemsFor, O.ParentId, O.HasPair;
    assert O.ListsConflicts(items, pairs, o.pairToConflicts, o.parents, s.ids, parentOf);
  }

  lemma IdsKnown(o: O.Orchestrator, s: Flat, pairs: seq<Edge>)
    requires Arranged(o, s) && forall p :: p in pairs ==> p.0 in s.names && p.1 in s.names
    ensures s.first in s.ids && forall p :: p in pairs ==> p.0 in s.ids && p.1 in s.ids
  {
    hide FlatlyOrchestrated, RowKept, Admitted;
  }

  lemma ItemsFit(pairs: seq<Edge>, ids: map<string, int>, parent: int, parentOf: map<string, int>)
    requires forall p :: p in pairs ==> p.0 in ids && p.1 in ids && p.0 in parentOf && parentOf[p.0] == parent
    ensures O.ItemsFor(ItemsOf(pairs, ids, parent), pairs, ids, parentOf)
  {
    var items := ItemsOf(pairs, ids, parent);
    forall i | 0 <= i < |items|
      ensures O.ItemFor(items[i], pairs[i], ids, parentOf)
    {
      assert pairs[i] in pairs;
    }
  }

  lemma ParentsOfAll(o: O.Orchestrator, s: Flat)
    requires Arranged(o, s)
    ensures s.first in s.ids
    ensures forall n :: n in s.names ==> n in o.parents && O.ParentId(o.parents[n], s.ids, s.ids[s.first])
  {
    hide FlatlyOrchestrated, RowKept, Admitted;
    forall n | n in s.names
      ensures n in o.parents && O.ParentId(o.parents[n], s.ids, s.ids[s.first])
    {
      FlatParents(o, s.first, SetOf(s.names), n);
    }
  }

  lemma PairsAreBranches(o: O.Orchestrator, s: Flat, pairs: seq<Edge>)
    requires Arranged(o, s) && forall p :: p in pairs <==> p in PairSet(o.pairToConflicts)
    ensures forall p :: p in pairs ==> p.0 in s.names && p.1 in s.names
  {
    forall p | p in pairs
      ensures p.0 in s.names && p.1 in s.names
    {
      assert O.HasPair(o.pairToConflicts, p.0, p.1);
      assert O.LevelPair(SetOf(s.names), o.actionTable, p.0, p.1);
    }
  }

  /** In the order of the names, every pair is recorded. */
  lemma RecordedPair(o: O.Orchestrator, s: Flat, i: nat, j: nat)
    requires Arranged(o, s) && i < j < |s.names|
    ensures (s.names[i], s.names[j]) in PairSet(o.pairToConflicts)
  {
    assert O.LevelPair(SetOf(s.names), o.actionTable, s.names[i], s.names[j]);
  }

  /** A list that begins with a given pair. */
  lemma ListStartingWith(o: O.Orchestrator, s: Flat, e: Edge) returns (pairs: seq<Edge>)
    requires Arranged(o, s) && e in PairSet(o.pairToConflicts)
    ensures forall p :: p in pairs ==> p.0 in s.ids && p.1 in s.ids
    ensures O.ConflictsListed(ItemsOf(pairs, s.ids, s.ids[s.first]), o.pairToConflicts, o.parents, s.ids)
    ensures pairs != [] && pairs[0] == e
  {
    hide *;
    var group, rest := StartingWith(PairSet(o.pairToConflicts), e);
    AppendGroup(group, rest, e.0);
    pairs := group + rest;
    AnyGroupedList(o, s, pairs);
  }

  /** A list in which all pairs of e's major, beginning with e, come first, and then d. */
  lemma ListWithTwo(o: O.Orchestrator, s: Flat, e: Edge, d: Edge) returns (group: seq<Edge>, rest: seq<Edge>)
    requires Arranged(o, s) && e in PairSet(o.pairToConflicts) && d in PairSet(o.pairToConflicts) && d.0 != e.0
    ensures forall p :: p in group + rest ==> p.0 in s.ids && p.1 in s.ids
    ensures O.ConflictsListed(ItemsOf(group + rest, s.ids, s.ids[s.first]), o.pairToConflicts, o.parents, s.ids)
    ensures group != [] && group[0] == e && (forall p :: p in group ==> p.0 == e.0) && rest != [] && rest[0] == d
  {
    hide *;
    var all := PairSet(o.pairToConflicts);
    var others;
    group, others := StartingWith(all, e);
    NotInGroup(all, e.0);
    var next, last := StartingWith(all - Group(all, e.0), d);
    AppendGroup(next, last, d.0);
    rest := next + last;
    AppendGroup(group, rest, e.0);
    AnyGroupedList(o, s, group + rest);
  }

  lemma NotInGroup(s: set<Edge>, major: string)
    ensures forall p :: p in s - Group(s, major) <==> p in s && p.0 != major
  {
  }

  lemma ItemsOfSplit(pairs: seq<Edge>, more: seq<Edge>, ids: map<string, int>, parent: int)
    requires forall p :: p in pairs + more ==> p.0 in ids && p.1 in ids
    ensures forall p :: p in pairs || p in more ==> p.0 in ids && p.1 in ids
    ensures ItemsOf(pairs + more, ids, parent) == ItemsOf(pairs, ids, parent) + ItemsOf(more, ids, parent)
  {
    assert forall p :: p in pairs || p in more ==> p in pairs + more;
  }

  // ----- A service that such a list does not merge to its sequential run -----

  lemma BranchRow(o: O.Orchestrator, s: Flat, b: int)
    requires Arranged(o, s) && b in BranchIds(s)
    ensures WellProfiled(s.row(b)) && b in s.writes && s.writes[b] == s.row(b).writeSet
  {
    hide FlatlyOrchestrated, Admitted, DistinctIds, WellFormedRow, ProfileOf;
    var i :| 0 <= i < |s.names| && BranchIds(s)[i] == b;
    assert RowKept(s.names[i], o.actionTable, s);
  }

  /** Only branch b changes its packet. */
  ghost predicate OnlyChanges(m: LiveMap<Bytes>, b: int, q: Wire) {
    (forall k :: k in m ==> !IsNull(m[k].fields)) && OthersHave(m, b, IsPacket(q))
  }

  lemma OnlyWriterBranches(o: O.Orchestrator, s: Flat, b: int, f: Field, v: Bytes, q: Wire)
    requires Arranged(o, s) && b in BranchIds(s) && f in s.row(b).writeSet && !IsNull(q)
    ensures f in MERGEABLE && AllFaithful(BranchIds(s), OnlyWriter(b, f, v, s.row), s.writes)
    ensures RunForest(BranchTrees(BranchIds(s)), OnlyWriter(b, f, v, s.row), q) == Put(q, f, v)
    ensures OnlyChanges(ForestLeafPackets(BranchTrees(BranchIds(s)), OnlyWriter(b, f, v, s.row), q), b, q)
  {
    hide *;
    WellArranged(o, s);
    var service, bs := OnlyWriter(b, f, v, s.row), BranchIds(s);
    PacketKeys(s, service, q);
    BranchRow(o, s, b);
    OnlyWriterAllFaithful(o, s, b, f, v);
    MayWrite(s.row(b), f);
    BranchesDistinct(bs);
    var i := TreeOfBranch(bs, b);
    OnlyWriterForest(BranchTrees(bs), b, f, v, s.row, q, i);
    BranchPackets(bs, service, q);
    OnlyOneChanges(ForestLeafPackets(BranchTrees(bs), service, q), bs, b, f, v, s.row, q);
  }

  lemma MayWrite(t: Profile, f: Field)
    requires WellProfiled(t) && f in t.writeSet
    ensures f in MERGEABLE
  {
  }

  lemma WellArranged(o: O.Orchestrator, s: Flat)
    requires Arranged(o, s)
    ensures s.names != [] && NoneTwice(s.names) && DistinctIds(s.ids, SetOf(s.names) + {s.first})
    ensures SetOf(s.names) <= s.ids.Keys
    ensures forall n :: n in s.names ==> n in s.ids && n in o.actionTable
    ensures s.first in s.ids && s.ids[s.first] !in IdsOf(SetOf(s.names), s.ids)
  {
    hide RowKept, Admitted;
    FirstIsNoBranch(o, s.first, SetOf(s.names), s.ids);
  }

  lemma TreeOfBranch(bs: seq<int>, b: int) returns (i: nat)
    requires b in bs
    ensures i < |BranchTrees(bs)| && b in Ids(BranchTrees(bs)[i])
  {
    i :| 0 <= i < |bs| && bs[i] == b;
  }

  lemma OnlyWriterAllFaithful(o: O.Orchestrator, s: Flat, b: int, f: Field, v: Bytes)
    requires Arranged(o, s) && f in s.row(b).writeSet
    ensures AllFaithful(BranchIds(s), OnlyWriter(b, f, v, s.row), s.writes)
  {
    hide Arranged, FaithfulAt, WellProfiled, OnlyWriter, BranchIds;
    WellArranged(o, s);
    forall k | k in BranchIds(s)
      ensures FaithfulAt(k, OnlyWriter(b, f, v, s.row), s.writes)
    {
      BranchRow(o, s, k);
      OnlyWriterFaithful(b, f, v, s.row, s.writes, k);
    }
  }

  lemma OnlyOneChanges(m: LiveMap<Bytes>, bs: seq<int>, b: int, f: Field, v: Bytes, row: int -> Profile, q: Wire)
    requires HoldsBranches(m, bs, OnlyWriter(b, f, v, row), q) && !IsNull(q) && f in MERGEABLE
    ensures OnlyChanges(m, b, q)
  {
    PutKeepsNull(q, f, v);
    forall k | k in m
      ensures !IsNull(m[k].fields) && (k != b ==> IsPacket(q)(m[k]))
    {
      assert HoldsBranch(m, k, OnlyWriter(b, f, v, row), q);
    }
  }

  /** The merged packet has the old value of a field the sequential run changes. */
  lemma NotSequential(items: seq<ConflictItem>, ts: seq<Tree>, service: Service, writes: WriteTable, q: Wire, f: Field, v: Bytes)
    requires Irreflexive(items) && ForestLeafPackets(ts, service, q) != map[]
    requires var m := ForestLeafPackets(ts, service, q);
      (forall k :: k in m ==> !IsNull(m[k].fields)) && MergeAll(items, writes, m).fields.Get(f) == q.Get(f)
    requires RunForest(ts, service, q) == Put(q, f, v) && f in MERGEABLE && !IsNull(q) && v != q.Get(f)
    ensures !SequentialFor(items, ts, service, writes, q)
  {
    hide MergeAll, ForestLeafPackets, RunForest, MergeOutcome;
    DropTheorem(items, writes, ForestLeafPackets(ts, service, q));
    PutKeepsNull(q, f, v);
  }

  lemma NoNulls(m: LiveMap<Bytes>, b: int, q: Wire)
    requires OnlyChanges(m, b, q)
    ensures forall k :: k in m ==> !IsNull(m[k].fields)
    ensures OthersHave(m, b, IsPacket(q))
  {
  }

  /** The index of the n-th branch other than that at `at`. */
  function Other(at: nat, n: nat): nat {
    if at <= n then n + 1 else n
  }

  lemma BranchIndex(s: Flat, b: int) returns (i: nat)
    requires (forall n :: n in s.names ==> n in s.ids) && b in BranchIds(s)
    ensures i < |s.names| && s.ids[s.names[i]] == b
  {
    i :| 0 <= i < |s.names| && BranchIds(s)[i] == b;
  }

  lemma DifferentIds(s: Flat, i: nat, j: nat)
    requires NoneTwice(s.names) && DistinctIds(s.ids, SetOf(s.names) + {s.first}) && i < |s.names| && j < |s.names| && i != j
    ensures s.names[i] in s.ids && s.names[j] in s.ids && s.names[i] != s.names[j] && s.ids[s.names[i]] != s.ids[s.names[j]]
  {
    assert s.names[i] in SetOf(s.names) && s.names[j] in SetOf(s.names);
  }

  /** Two recorded pairs of four branches, the second with b in it. */
  lemma TwoPairs(o: O.Orchestrator, s: Flat, b: int) returns (e: Edge, d: Edge)
    requires Arranged(o, s) && |s.names| >= 4 && (forall n :: n in s.names ==> n in s.ids) && b in BranchIds(s)
    ensures e in PairSet(o.pairToConflicts) && d in PairSet(o.pairToConflicts) && d.0 != e.0
    ensures {e.0, e.1, d.0, d.1} <= SetOf(s.names) && {e.0, e.1, d.0, d.1} <= s.ids.Keys && b in {s.ids[d.0], s.ids[d.1]}
    ensures {s.ids[e.0], s.ids[e.1]} !! {s.ids[d.0], s.ids[d.1]}
  {
    hide *;
    WellArranged(o, s);
    var at := BranchIndex(s, b);
    var i, j, k := ThreeOthers(at);
    e := PairAt(o, s, i, j);
    d := PairAt(o, s, k, at);
    DifferentIds(s, i, k);
    DifferentIds(s, i, at);
    DifferentIds(s, j, k);
    DifferentIds(s, j, at);
    AreBranches(s, e);
    AreBranches(s, d);
  }

  lemma AreBranches(s: Flat, e: Edge)
    requires e.0 in s.names && e.1 in s.names
    ensures {e.0, e.1} <= SetOf(s.names)
  {
  }

  lemma BranchesThere(s: Flat, e: Edge, m: LiveMap<Bytes>)
    requires SetOf(s.names) <= s.ids.Keys && m.Keys == IdsOf(SetOf(s.names), s.ids)
    requires {e.0, e.1} <= SetOf(s.names)
    ensures {s.ids[e.0], s.ids[e.1]} <= m.Keys
  {
  }

  lemma ThreeOthers(at: nat) returns (i: nat, j: nat, k: nat)
    ensures i != j && i != k && j != k && at != i && at != j && at != k && i < 4 && j < 4 && k < 4
  {
    i, j, k := Other(at, 0), Other(at, 1), Other(at, 2);
  }

  lemma PairAt(o: O.Orchestrator, s: Flat, i: nat, j: nat) returns (e: Edge)
    requires Arranged(o, s) && i < |s.names| && j < |s.names| && i != j
    ensures e in PairSet(o.pairToConflicts) && (e == (s.names[i], s.names[j]) || e == (s.names[j], s.names[i]))
  {
    hide *;
    if i < j {
      RecordedPair(o, s, i, j);
      e := (s.names[i], s.names[j]);
    } else {
      RecordedPair(o, s, j, i);
      e := (s.names[j], s.names[i]);
    }
  }

  lemma LostInGroups(s: Flat, group: seq<Edge>, rest: seq<Edge>, e: Edge, d: Edge, parent: int, m: LiveMap<Bytes>, b: int,
                     has: Info<Bytes> -> bool)
    requires forall p :: p in group || p in rest ==> p.0 in s.ids && p.1 in s.ids
    requires group != [] && group[0] == e && (forall p :: p in group ==> p.0 == e.0) && rest != [] && rest[0] == d
    requires Irreflexive(ItemsOf(group, s.ids, parent) + ItemsOf(rest, s.ids, parent)) && m != map[]
    requires Closed(has) && OthersHave(m, b, has) && parent !in m
    requires {s.ids[e.0], s.ids[e.1], s.ids[d.0], s.ids[d.1]} <= m.Keys && b in {s.ids[d.0], s.ids[d.1]}
    requires {s.ids[e.0], s.ids[e.1]} !! {s.ids[d.0], s.ids[d.1]}
    ensures has(MergeAll(ItemsOf(group, s.ids, parent) + ItemsOf(rest, s.ids, parent), s.writes, m))
  {
    hide MergeAll, Closed, OthersHave, Irreflexive;
    var early, late := ItemsOf(group, s.ids, parent), ItemsOf(rest, s.ids, parent);
    var first, second := early[0], late[0];
    assert early == [first] + early[1..] && late == [second] + late[1..];
    forall i | 0 <= i < |early[1..]|
      ensures early[1..][i].major == first.major
    {
      assert early[1..][i] == early[i + 1] && group[i + 1] in group;
    }
    PairLost(first, early[1..], second, late[1..], s.writes, m, b, has);
  }

  /** Four branches or more: a list that begins with two other branches, then
      b and a fourth one. */
  lemma WriterLost(o: O.Orchestrator, s: Flat, b: int, f: Field, v: Bytes, q: Wire) returns (items: seq<ConflictItem>)
    requires Arranged(o, s) && |s.names| >= 4 && b in BranchIds(s) && f in s.row(b).writeSet
    requires !IsNull(q) && v != q.Get(f)
    ensures O.ConflictsListed(items, o.pairToConflicts, o.parents, s.ids)
    ensures !SequentialFor(items, BranchTrees(BranchIds(s)), OnlyWriter(b, f, v, s.row), s.writes, q)
  {
    hide *;
    WellArranged(o, s);
    var ts, service := BranchTrees(BranchIds(s)), OnlyWriter(b, f, v, s.row);
    var m := ForestLeafPackets(ts, service, q);
    PacketKeys(s, service, q);
    var e, d := TwoPairs(o, s, b);
    var group, rest := ListWithTwo(o, s, e, d);
    var parent := s.ids[s.first];
    items := ItemsOf(group + rest, s.ids, parent);
    OrchestratedIsIrreflexive(o, s, items, m);
    OnlyWriterBranches(o, s, b, f, v, q);
    ItemsOfSplit(group, rest, s.ids, parent);
    PacketCloses(q);
    SomeBranch(BranchIds(s));
    SomePacket(ts, service, q);
    NoNulls(m, b, q);
    BranchesThere(s, e, m);
    BranchesThere(s, d, m);
    LostInGroups(s, group, rest, e, d, parent, m, b, IsPacket(q));
    IsThatPacket(MergeAll(items, s.writes, m), q);
    NotSequential(items, ts, service, s.writes, q, f, v);
  }

  /** Three branches, and the first function counts as writing what b wrote and
      comes first in the fold: a list that begins with the other two. */
  lemma ThirdLost(o: O.Orchestrator, s: Flat, b: int, f: Field, v: Bytes, q: Wire) returns (items: seq<ConflictItem>)
    requires Arranged(o, s) && |s.names| == 3 && b in BranchIds(s) && f in s.row(b).writeSet
    requires !IsNull(q) && v != q.Get(f) && !NotHidden(3, s.ids[s.first], s.writes, b, f)
    requires NothingShared(s.names, o.actionTable)
    ensures O.ConflictsListed(items, o.pairToConflicts, o.parents, s.ids)
    ensures !SequentialFor(items, BranchTrees(BranchIds(s)), OnlyWriter(b, f, v, s.row), s.writes, q)
  {
    hide *;
    WellArranged(o, s);
    var ts, service := BranchTrees(BranchIds(s)), OnlyWriter(b, f, v, s.row);
    var m := ForestLeafPackets(ts, service, q);
    PacketKeys(s, service, q);
    var at := BranchIndex(s, b);
    var i, j := TwoOthers(at);
    var e := PairAt(o, s, i, j);
    var pairs := ListStartingWith(o, s, e);
    var parent := s.ids[s.first];
    items := ItemsOf(pairs, s.ids, parent);
    DifferentIds(s, i, at);
    DifferentIds(s, j, at);
    OrchestratedIsIrreflexive(o, s, items, m);
    OnlyWriterBranches(o, s, b, f, v, q);
    SomeBranch(BranchIds(s));
    SomePacket(ts, service, q);
    NoNulls(m, b, q);
    AreBranches(s, e);
    BranchesThere(s, e, m);
    ThreePackets(s, service, q);
    OnlyWriterRow(b, f, v, s.row);
    OthersUnwritten(o, s, service, q, at, i, f);
    OthersUnwritten(o, s, service, q, at, j, f);
    ParentWins(items, s.writes, m, parent, f, b, q);
    NotSequential(items, ts, service, s.writes, q, f, v);
  }

  lemma TwoOthers(at: nat) returns (i: nat, j: nat)
    requires at < 3
    ensures i != j && at != i && at != j && i < 3 && j < 3
  {
    i, j := Other(at, 0), Other(at, 1);
  }

  lemma ThreePackets(s: Flat, service: Service, q: Wire)
    requires |s.names| == 3 && (forall n :: n in s.names ==> n in s.ids) && NoneTwice(BranchIds(s))
    ensures |ForestLeafPackets(BranchTrees(BranchIds(s)), service, q)| == 3
  {
    hide ForestLeafPackets, NoneTwice;
    BranchPackets(BranchIds(s), service, q);
  }

  lemma OthersUnwritten(o: O.Orchestrator, s: Flat, service: Service, q: Wire, at: nat, i: nat, f: Field)
    requires Arranged(o, s) && NothingShared(s.names, o.actionTable)
    requires at < |s.names| && i < |s.names| && i != at && service.row == s.row
    requires s.names[at] in s.ids && s.names[i] in s.ids && f in s.row(s.ids[s.names[at]]).writeSet
    ensures forall n :: n in s.names ==> n in s.ids
    ensures var m := ForestLeafPackets(BranchTrees(BranchIds(s)), service, q);
      s.ids[s.names[i]] in m && f !in m[s.ids[s.names[i]]].written
  {
    hide *;
    WellArranged(o, s);
    PacketKeys(s, service, q);
    BranchPackets(BranchIds(s), service, q);
    RowsDiffer(o, s, at, i, f);
    BranchHeld(s, service, q, i, ForestLeafPackets(BranchTrees(BranchIds(s)), service, q));
  }

  lemma BranchHeld(s: Flat, service: Service, q: Wire, i: nat, m: LiveMap<Bytes>)
    requires (forall n :: n in s.names ==> n in s.ids) && i < |s.names| && HoldsBranches(m, BranchIds(s), service, q)
    ensures s.ids[s.names[i]] in m && m[s.ids[s.names[i]]].written == service.row(s.ids[s.names[i]]).writeSet
  {
    assert BranchIds(s)[i] in BranchIds(s);
    assert HoldsBranch(m, BranchIds(s)[i], service, q);
  }

  lemma RowsDiffer(o: O.Orchestrator, s: Flat, at: nat, i: nat, f: Field)
    requires Arranged(o, s) && NothingShared(s.names, o.actionTable) && at < |s.names| && i < |s.names| && i != at
    requires s.names[at] in s.ids && s.names[i] in s.ids && f in s.row(s.ids[s.names[at]]).writeSet
    ensures f !in s.row(s.ids[s.names[i]]).writeSet
  {
    hide FlatlyOrchestrated, Parallelizable, ProfileOf, WellFormedRow, WellProfiled, DistinctIds;
    assert RowKept(s.names[i], o.actionTable, s) && RowKept(s.names[at], o.actionTable, s);
  }

  lemma ParentWins(items: seq<ConflictItem>, writes: WriteTable, m: LiveMap<Bytes>, parent: int, f: Field, b: int, q: Wire)
    requires FlatList(items, m, parent) && Irreflexive(items) && |m| == 3 && items != []
    requires {items[0].major, items[0].minor} <= m.Keys && b in m && b !in {items[0].major, items[0].minor}
    requires !NotHidden(3, parent, writes, b, f) && f !in m[items[0].minor].written && OthersHave(m, b, IsPacket(q))
    ensures m != map[] && MergeAll(items, writes, m).fields.Get(f) == q.Get(f)
  {
    hide MergeAll;
    assert IsPacket(q)(m[items[0].major]);
    ThirdBranchHidden(items, writes, m, parent, f, b);
  }

  // ----- Branches that write the same field -----

  /** With two or three branches of which only the first item's minor changes
      a field, its major's unchanged value arrives if the major counts as
      having written it. */
  lemma MajorWins(items: seq<ConflictItem>, writes: WriteTable, m: LiveMap<Bytes>, parent: int, f: Field, q: Wire)
    requires FlatList(items, m, parent) && Irreflexive(items) && 2 <= |m| <= 3 && items != [] && Enabled(items[0], m)
    requires f in m[items[0].major].written && OthersHave(m, items[0].minor, IsPacket(q))
    ensures m != map[] && MergeAll(items, writes, m).fields.Get(f) == q.Get(f)
  {
    hide FlatList, Loop, FoldAll, Fold, Collapse;
    FirstItemDecides(items, writes, m, parent);
    FirstParent(items, m, parent);
    var ci := items[0];
    var merged := Merged(ci, writes, m);
    assert IsPacket(q)(m[ci.major]);
    assert merged.fields.Get(f) == Choose(f, m[ci.major], m[ci.minor]) == q.Get(f);
    if |m| == 2 {
      CollapsedPair(ci, writes, m);
    } else {
      var k := CollapsedTriple(ci, writes, m);
      assert IsPacket(q)(m[k]);
      assert FoldAll(Collapse(ci, writes, m)).fields.Get(f) ==
             if k < ci.parent then Choose(f, m[k], merged) else Choose(f, merged, m[k]);
    }
  }

  /** With two branches, the first item's major keeps what it has written. */
  lemma MajorKeeps<T>(items: seq<ConflictItem>, writes: WriteTable, m: LiveMap<T>, parent: int, f: Field)
    requires FlatList(items, m, parent) && Irreflexive(items) && |m| == 2 && items != [] && Enabled(items[0], m)
    requires f in m[items[0].major].written
    ensures m != map[] && MergeAll(items, writes, m).fields.Get(f) == m[items[0].major].fields.Get(f)
  {
    hide FlatList, Loop, FoldAll, Fold, Collapse;
    FirstItemDecides(items, writes, m, parent);
    FirstParent(items, m, parent);
    CollapsedPair(items[0], writes, m);
    assert Merged(items[0], writes, m).fields.Get(f) == Choose(f, m[items[0].major], m[items[0].minor]);
  }

  lemma FewPackets(s: Flat, service: Service, q: Wire)
    requires (forall n :: n in s.names ==> n in s.ids) && NoneTwice(BranchIds(s))
    ensures |ForestLeafPackets(BranchTrees(BranchIds(s)), service, q)| == |s.names|
  {
    hide ForestLeafPackets, NoneTwice;
    BranchPackets(BranchIds(s), service, q);
  }

  lemma HeldWrite(o: O.Orchestrator, s: Flat, service: Service, q: Wire, i: nat)
    requires Arranged(o, s) && i < |s.names| && service.row == s.row
    ensures (forall n :: n in s.names ==> n in s.ids) && i < |BranchIds(s)|
    ensures var m, b := ForestLeafPackets(BranchTrees(BranchIds(s)), service, q), BranchIds(s)[i];
      b == s.ids[s.names[i]] && b in m && m[b] == Info(service.run(b, q), s.row(b).writeSet)
  {
    hide Arranged, ForestLeafPackets;
    WellArranged(o, s);
    PacketKeys(s, service, q);
    BranchPackets(BranchIds(s), service, q);
    assert HoldsBranch(ForestLeafPackets(BranchTrees(BranchIds(s)), service, q), BranchIds(s)[i], service, q);
  }

  /** Two or three branches, of which the one at j and an earlier one count as
      writing the same field: a list that begins with the two. */
  lemma SharedLost(o: O.Orchestrator, s: Flat, i: nat, j: nat, f: Field, v: Bytes, q: Wire)
    returns (items: seq<ConflictItem>, b: int)
    requires Arranged(o, s) && |s.names| <= 3 && i < j < |s.names|
    requires f in ProfileOf(o.actionTable[s.names[i]]).writeSet && f in ProfileOf(o.actionTable[s.names[j]]).writeSet
    requires !IsNull(q) && v != q.Get(f)
    ensures forall n :: n in s.names ==> n in s.ids
    ensures O.ConflictsListed(items, o.pairToConflicts, o.parents, s.ids) && b in BranchIds(s) && f in s.row(b).writeSet
    ensures !SequentialFor(items, BranchTrees(BranchIds(s)), OnlyWriter(b, f, v, s.row), s.writes, q)
  {
    hide *;
    WellArranged(o, s);
    BranchWrites(o, s, i);
    BranchWrites(o, s, j);
    b := BranchIds(s)[j];
    var ts, service := BranchTrees(BranchIds(s)), OnlyWriter(b, f, v, s.row);
    var m := ForestLeafPackets(ts, service, q);
    PacketKeys(s, service, q);
    FewPackets(s, service, q);
    RecordedPair(o, s, i, j);
    var pairs := ListStartingWith(o, s, (s.names[i], s.names[j]));
    var parent := s.ids[s.first];
    items := ItemsOf(pairs, s.ids, parent);
    OrchestratedIsIrreflexive(o, s, items, m);
    OnlyWriterRow(b, f, v, s.row);
    HeldWrite(o, s, service, q, i);
    HeldWrite(o, s, service, q, j);
    OnlyWriterBranches(o, s, b, f, v, q);
    SomeBranch(BranchIds(s));
    SomePacket(ts, service, q);
    NoNulls(m, b, q);
    BothPresent(items[0], m);
    MajorWins(items, s.writes, m, parent, f, q);
    NotSequential(items, ts, service, s.writes, q, f, v);
  }

  lemma BothPresent<T>(ci: ConflictItem, m: LiveMap<T>)
    requires ci.major in m && ci.minor in m
    ensures Enabled(ci, m)
  {
  }

  lemma BranchWrites(o: O.Orchestrator, s: Flat, i: nat)
    requires Arranged(o, s) && i < |s.names|
    ensures (forall n :: n in s.names ==> n in s.ids) && i < |BranchIds(s)| && BranchIds(s)[i] in BranchIds(s)
    ensures BranchIds(s)[i] == s.ids[s.names[i]] && s.row(BranchIds(s)[i]) == ProfileOf(o.actionTable[s.names[i]])
  {
    hide FlatlyOrchestrated, Admitted, DistinctIds, WellFormedRow, ProfileOf, WellProfiled;
    assert RowKept(s.names[i], o.actionTable, s);
  }

  /** The merger sends on a packet with what the branch named first put into the field. */
  ghost predicate SendsFirst(items: seq<ConflictItem>, s: Flat, service: Service, q: Wire, f: Field)
    requires s.names != [] && forall n :: n in s.names ==> n in s.ids
  {
    var m := ForestLeafPackets(BranchTrees(BranchIds(s)), service, q);
    Irreflexive(items) && m != map[] && MergeOutcome(items, s.writes, m).Delivered?
    && MergeOutcome(items, s.writes, m).packet.Get(f) == service.run(BranchIds(s)[0], q).Get(f)
  }

  /** For every list the orchestrator may produce, all functions within their
      rows, and every real packet that neither branch drops. */
  ghost predicate FirstNamedWins(o: O.Orchestrator, s: Flat, f: Field)
    reads o
    requires s.names != [] && forall n :: n in s.names ==> n in s.ids
  {
    forall items: seq<ConflictItem>, service: Service, q: Wire {:trigger SendsFirst(items, s, service, q, f)} ::
      O.ConflictsListed(items, o.pairToConflicts, o.parents, s.ids) && service.row == s.row
      && AllFaithful(BranchIds(s), service, s.writes) && MakesPackets(service) && WellFormed(q)
      && (forall b :: b in BranchIds(s) ==> !IsNull(service.run(b, q))) ==>
        SendsFirst(items, s, service, q, f)
  }

  /** On a field that both of two branches write, the value of the one named
      first arrives, whatever the list, the functions and the packet, if and
      only if the check does not admit the pair the other way round too. */
  lemma FirstNamedWinsExactly(o: O.Orchestrator, s: Flat, f: Field)
    requires Arranged(o, s) && |s.names| == 2
    requires f in ProfileOf(o.actionTable[s.names[0]]).writeSet && f in ProfileOf(o.actionTable[s.names[1]]).writeSet
    ensures forall n :: n in s.names ==> n in s.ids
    ensures FirstNamedWins(o, s, f) <==> !Parallelizable(o.actionTable[s.names[1]], o.actionTable[s.names[0]])
  {
    hide Arranged, SendsFirst, O.ConflictsListed, AllFaithful, Parallelizable, ProfileOf, MakesPackets, WellFormed, BranchIds;
    WellArranged(o, s);
    if Parallelizable(o.actionTable[s.names[1]], o.actionTable[s.names[0]]) {
      var items, service, q := SecondWins(o, s, f);
    } else {
      forall items: seq<ConflictItem>, service: Service, q: Wire
        | O.ConflictsListed(items, o.pairToConflicts, o.parents, s.ids) && service.row == s.row
          && forall b :: b in BranchIds(s) ==> !IsNull(service.run(b, q))
        ensures SendsFirst(items, s, service, q, f)
      {
        OneDirection(o, s, items, service, q, f);
      }
    }
  }

  lemma FirstItemIsPair(o: O.Orchestrator, s: Flat, items: seq<ConflictItem>)
    requires Arranged(o, s) && |s.names| == 2 && O.ConflictsListed(items, o.pairToConflicts, o.parents, s.ids) && items != []
    ensures forall n :: n in s.names ==> n in s.ids
    ensures Parallelizable(o.actionTable[s.names[1]], o.actionTable[s.names[0]])
            || (items[0].major == s.ids[s.names[0]] && items[0].minor == s.ids[s.names[1]])
  {
    hide Arranged, Parallelizable, O.NoRepeats, O.Grouped, O.HasPair, O.ParentId;
    WellArranged(o, s);
    var pairs, parentOf :| O.ListsConflicts(items, pairs, o.pairToConflicts, o.parents, s.ids, parentOf);
    var (a, b) := pairs[0];
    assert (a, b) in pairs && O.ItemFor(items[0], pairs[0], s.ids, parentOf);
    RecordedNames(o, s, a, b);
  }

  lemma RecordedNames(o: O.Orchestrator, s: Flat, a: string, b: string)
    requires Arranged(o, s) && |s.names| == 2 && O.HasPair(o.pairToConflicts, a, b)
    ensures (a == s.names[0] && b == s.names[1]) || (a == s.names[1] && b == s.names[0])
    ensures a in o.actionTable && b in o.actionTable && Parallelizable(o.actionTable[a], o.actionTable[b])
  {
    hide Parallelizable, RowKept, Admitted, DistinctIds;
    assert O.LevelPair(SetOf(s.names), o.actionTable, a, b);
  }

  lemma OneDirection(o: O.Orchestrator, s: Flat, items: seq<ConflictItem>, service: Service, q: Wire, f: Field)
    requires Arranged(o, s) && |s.names| == 2 && (forall n :: n in s.names ==> n in s.ids)
    requires f in ProfileOf(o.actionTable[s.names[0]]).writeSet
    requires !Parallelizable(o.actionTable[s.names[1]], o.actionTable[s.names[0]])
    requires O.ConflictsListed(items, o.pairToConflicts, o.parents, s.ids) && service.row == s.row
    requires forall b :: b in BranchIds(s) ==> !IsNull(service.run(b, q))
    ensures SendsFirst(items, s, service, q, f)
  {
    hide *;
    WellArranged(o, s);
    var m, parent := ForestLeafPackets(BranchTrees(BranchIds(s)), service, q), s.ids[s.first];
    PacketKeys(s, service, q);
    FewPackets(s, service, q);
    OrchestratedIsIrreflexive(o, s, items, m);
    SomeItem(items, m, parent);
    FirstItemIsPair(o, s, items);
    BranchWrites(o, s, 0);
    HeldWrite(o, s, service, q, 0);
    HeldWrite(o, s, service, q, 1);
    BothPresent(items[0], m);
    MajorKeeps(items, s.writes, m, parent, f);
    Sent(s, items, service, q, f);
  }

  /** If no branch drops the packet, the merge is delivered. */
  lemma Sent(s: Flat, items: seq<ConflictItem>, service: Service, q: Wire, f: Field)
    requires s.names != [] && (forall n :: n in s.names ==> n in s.ids) && NoneTwice(BranchIds(s)) && Irreflexive(items)
    requires forall b :: b in BranchIds(s) ==> !IsNull(service.run(b, q))
    requires ForestLeafPackets(BranchTrees(BranchIds(s)), service, q) != map[]
    ensures var m := ForestLeafPackets(BranchTrees(BranchIds(s)), service, q);
      SendsFirst(items, s, service, q, f) <==>
      MergeAll(items, s.writes, m).fields.Get(f) == service.run(BranchIds(s)[0], q).Get(f)
  {
    hide ForestLeafPackets, MergeAll, MergeOutcome, IsNull, BranchIds;
    var m := ForestLeafPackets(BranchTrees(BranchIds(s)), service, q);
    BranchPackets(BranchIds(s), service, q);
    forall k | k in m
      ensures !IsNull(m[k].fields)
    {
      assert HoldsBranch(m, k, service, q);
    }
    DropTheorem(items, s.writes, m);
  }

  /** Admitted both ways, the pair may be listed the other way round first. */
  lemma SecondWins(o: O.Orchestrator, s: Flat, f: Field) returns (items: seq<ConflictItem>, service: Service, q: Wire)
    requires Arranged(o, s) && |s.names| == 2 && (forall n :: n in s.names ==> n in s.ids)
    requires f in ProfileOf(o.actionTable[s.names[1]]).writeSet
    requires Parallelizable(o.actionTable[s.names[1]], o.actionTable[s.names[0]])
    ensures O.ConflictsListed(items, o.pairToConflicts, o.parents, s.ids)
    ensures service.row == s.row && AllFaithful(BranchIds(s), service, s.writes) && MakesPackets(service) && WellFormed(q)
    ensures forall b :: b in BranchIds(s) ==> !IsNull(service.run(b, q))
    ensures !SendsFirst(items, s, service, q, f)
  {
    hide *;
    WellArranged(o, s);
    q := SamplePacket();
    SampleIsReal();
    BranchWrites(o, s, 0);
    BranchWrites(o, s, 1);
    DifferentIds(s, 0, 1);
    var b, v, parent := BranchIds(s)[1], OtherValue(f), s.ids[s.first];
    service := OnlyWriter(b, f, v, s.row);
    var m := ForestLeafPackets(BranchTrees(BranchIds(s)), service, q);
    OnlyWriterRow(b, f, v, s.row);
    OnlyWriterMakesPackets(b, f, v, s.row);
    OnlyWriterBranches(o, s, b, f, v, q);
    PacketKeys(s, service, q);
    FewPackets(s, service, q);
    MutualPair(o, s);
    var pairs := ListStartingWith(o, s, (s.names[1], s.names[0]));
    items := ItemsOf(pairs, s.ids, parent);
    OrchestratedIsIrreflexive(o, s, items, m);
    HeldWrite(o, s, service, q, 0);
    HeldWrite(o, s, service, q, 1);
    BothPresent(items[0], m);
    MajorKeeps(items, s.writes, m, parent, f);
    OnlyWriterRuns(b, f, v, s.row, q);
    Sent(s, items, service, q, f);
  }

  lemma MutualPair(o: O.Orchestrator, s: Flat)
    requires Arranged(o, s) && |s.names| == 2 && Parallelizable(o.actionTable[s.names[1]], o.actionTable[s.names[0]])
    ensures (s.names[1], s.names[0]) in PairSet(o.pairToConflicts)
  {
    hide Parallelizable, RowKept, Admitted;
    assert O.LevelPair(SetOf(s.names), o.actionTable, s.names[1], s.names[0]);
  }

  lemma OnlyWriterRuns(b: int, f: Field, v: Bytes, row: int -> Profile, q: Wire)
    requires !IsNull(q) && f in MERGEABLE
    ensures forall k :: OnlyWriter(b, f, v, row).run(k, q) == if k == b then Put(q, f, v) else q
    ensures !IsNull(Put(q, f, v)) && Put(q, f, v).Get(f) == v
  {
    PutKeepsNull(q, f, v);
  }

  // ----- The boundary -----

  /** The exact boundary: for every list the orchestrator may produce, all
      functions within their rows and every real packet, the merge is the
      sequential run, if and only if no branch writes at all, or there are at
      most three branches, no field is written by two of them, and none of
      their writes is hidden by the first function's. */
  lemma FlatServiceExactly(o: O.Orchestrator, s: Flat)
    requires Arranged(o, s)
    ensures s.first in s.ids
    ensures FlatAlwaysSequential(o, s) <==>
            (|s.names| <= 3 && NothingShared(s.names, o.actionTable)
             && NoneHidden(BranchIds(s), s.ids[s.first], s.row, s.writes))
            || AllSilent(BranchIds(s), s.row)
  {
    hide Arranged, SequentialFor, O.ConflictsListed, ItemsOf, NoneHidden, NothingShared, AllSilent, AllFaithful, BranchIds;
    WellArranged(o, s);
    if |s.names| <= 3 && NothingShared(s.names, o.actionTable) && NoneHidden(BranchIds(s), s.ids[s.first], s.row, s.writes) {
      forall items: seq<ConflictItem>, service: Service, q: Wire
        | O.ConflictsListed(items, o.pairToConflicts, o.parents, s.ids) && service.row == s.row
          && AllFaithful(BranchIds(s), service, s.writes)
        ensures SequentialFor(items, BranchTrees(BranchIds(s)), service, s.writes, q)
      {
        FewBranches(o, s, items, service, q);
      }
    } else if AllSilent(BranchIds(s), s.row) {
      forall items: seq<ConflictItem>, service: Service, q: Wire
        | O.ConflictsListed(items, o.pairToConflicts, o.parents, s.ids) && service.row == s.row
          && AllFaithful(BranchIds(s), service, s.writes)
        ensures SequentialFor(items, BranchTrees(BranchIds(s)), service, s.writes, q)
      {
        ManySilent(o, s, items, service, q);
      }
    } else {
      var items, service, q := NotAlways(o, s);
    }
  }

  /** The failing half, with the list, the functions and the packet that show it. */
  lemma NotAlways(o: O.Orchestrator, s: Flat) returns (items: seq<ConflictItem>, service: Service, q: Wire)
    requires Arranged(o, s) && s.first in s.ids && (forall n :: n in s.names ==> n in s.ids) && !AllSilent(BranchIds(s), s.row)
    requires !(|s.names| <= 3 && NothingShared(s.names, o.actionTable)
               && NoneHidden(BranchIds(s), s.ids[s.first], s.row, s.writes))
    ensures O.ConflictsListed(items, o.pairToConflicts, o.parents, s.ids)
    ensures service.row == s.row && AllFaithful(BranchIds(s), service, s.writes) && MakesPackets(service) && WellFormed(q)
    ensures !SequentialFor(items, BranchTrees(BranchIds(s)), service, s.writes, q)
  {
    hide *;
    q := SamplePacket();
    SampleIsReal();
    WellArranged(o, s);
    var b, f, v;
    if |s.names| <= 3 && !NothingShared(s.names, o.actionTable) {
      var i, j;
      i, j, f := SharedField(o, s);
      v := OtherValue(f);
      items, b := SharedLost(o, s, i, j, f, v, q);
    } else {
      b, f := HiddenOrWriter(s);
      v := OtherValue(f);
      if |s.names| <= 3 {
        items := ThirdLost(o, s, b, f, v, q);
      } else {
        items := WriterLost(o, s, b, f, v, q);
      }
    }
    OnlyWriterBranches(o, s, b, f, v, q);
    service := OnlyWriter(b, f, v, s.row);
    OnlyWriterRow(b, f, v, s.row);
    OnlyWriterMakesPackets(b, f, v, s.row);
  }

  lemma SharedField(o: O.Orchestrator, s: Flat) returns (i: nat, j: nat, f: Field)
    requires (forall n :: n in s.names ==> n in o.actionTable) && !NothingShared(s.names, o.actionTable)
    ensures i < j < |s.names|
    ensures f in ProfileOf(o.actionTable[s.names[i]]).writeSet && f in ProfileOf(o.actionTable[s.names[j]]).writeSet
  {
    hide ProfileOf;
    i, j :| 0 <= i < j < |s.names|
            && !(ProfileOf(o.actionTable[s.names[i]]).writeSet !! ProfileOf(o.actionTable[s.names[j]]).writeSet);
    f :| f in ProfileOf(o.actionTable[s.names[i]]).writeSet && f in ProfileOf(o.actionTable[s.names[j]]).writeSet;
  }

  lemma OnlyWriterRow(b: int, f: Field, v: Bytes, row: int -> Profile)
    ensures OnlyWriter(b, f, v, row).row == row
  {
  }

  /** A branch whose write the first function's hide, or if there are more
      than three, any branch that writes. */
  lemma HiddenOrWriter(s: Flat) returns (b: int, f: Field)
    requires s.first in s.ids && (forall n :: n in s.names ==> n in s.ids) && !AllSilent(BranchIds(s), s.row)
    requires !(|s.names| <= 3 && NoneHidden(BranchIds(s), s.ids[s.first], s.row, s.writes))
    ensures b in BranchIds(s) && f in s.row(b).writeSet
    ensures |s.names| <= 3 ==> |s.names| == 3 && !NotHidden(3, s.ids[s.first], s.writes, b, f)
  {
    if |s.names| <= 3 {
      b, f :| b in BranchIds(s) && f in s.row(b).writeSet && !NotHidden(|BranchIds(s)|, s.ids[s.first], s.writes, b, f);
    } else {
      b :| b in BranchIds(s) && s.row(b).writeSet != {};
      f := Pick(s.row(b).writeSet);
    }
  }
}

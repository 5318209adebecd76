/** Which services the merger can merge a packet for at all: it waits for a
    packet from every node without neighbours, and then its loop must end. */
module Liveness {
  import opened Packets
  import opened MergeSpec
  import opened MergeProtocol
  import opened GraphPaths
  import opened ServiceGraph
  import opened LoopEnds
  import O = Orchestrator

  // ----- The merger's side -----

  /** Packets reach the merger from the senders only. */
  ghost predicate SentBy<P(!new)>(steps: seq<Step<P>>, senders: set<int>) {
    forall l, id, packet: P :: Receive(l, id, packet) in steps ==> l in senders
  }

  /** In some run a merge is spawned, the senders alone sending. */
  ghost predicate CanMerge<P(!new)>(cfg: Config, senders: set<int>) {
    exists steps: seq<Step<P>> :: MergesIn(cfg, steps, senders)
  }

  ghost predicate MergesIn<P(!new)>(cfg: Config, steps: seq<Step<P>>, senders: set<int>) {
    CanRun(cfg, Init(cfg), steps) && SentBy(steps, senders) && Run(cfg, Init(cfg), steps).merges != []
  }

  /** Only threads of leaves receive. */
  lemma {:induction false} LeavesReceive<P(!new)>(cfg: Config, s: State<P>, steps: seq<Step<P>>)
    requires Inv(cfg, s) && CanRun(cfg, s, steps)
    ensures SentBy(steps, cfg.leaves)
    decreases |steps|
  {
    hide Apply;
    if steps == [] {
    } else {
      StepInv(cfg, s, steps[0]);
      LeavesReceive(cfg, Apply(cfg, s, steps[0]), steps[1..]);
      assert steps == [steps[0]] + steps[1..];
    }
  }

  lemma StartInv<P>(cfg: Config)
    requires cfg.leaves != {}
    ensures Inv<P>(cfg, Init(cfg))
  {
  }

  /** The merger merges something in some run exactly if every leaf it waits for sends. */
  lemma MergesExactly<P(!new)>(cfg: Config, senders: set<int>, packet: P)
    requires cfg.leaves != {} && !cfg.locked
    ensures CanMerge<P>(cfg, senders) <==> cfg.leaves <= senders
  {
    hide *;
    StartInv<P>(cfg);
    if cfg.leaves <= senders {
      var steps: seq<Step<P>> := EveryLeafSpawns(cfg, packet);
      LeavesReceive(cfg, Init(cfg), steps);
      MoreSenders(steps, cfg.leaves, senders);
      SomeSpawned(Run(cfg, Init(cfg), steps).merges, |cfg.leaves|);
      IsMerged(cfg, steps, senders);
    }
    if CanMerge<P>(cfg, senders) {
      var steps: seq<Step<P>> := MergingRun(cfg, senders);
      forall l | l in cfg.leaves
        ensures l in senders
      {
        SpawnedForReceivedPackets(cfg, steps, 0, l);
        var end: State<P> := Run(cfg, Init(cfg), steps);
        IsSender(steps, senders, l, end.merges[0].id, end.inner[end.merges[0].ref][l]);
      }
    }
  }

  lemma IsSender<P(!new)>(steps: seq<Step<P>>, senders: set<int>, l: int, id: int, packet: P)
    requires SentBy(steps, senders) && Receive(l, id, packet) in steps
    ensures l in senders
  {
  }

  lemma IsMerged<P(!new)>(cfg: Config, steps: seq<Step<P>>, senders: set<int>)
    requires CanRun(cfg, Init(cfg), steps) && SentBy(steps, senders) && Run(cfg, Init(cfg), steps).merges != []
    ensures CanMerge<P>(cfg, senders)
  {
    assert MergesIn(cfg, steps, senders);
  }

  lemma MergingRun<P(!new)>(cfg: Config, senders: set<int>) returns (steps: seq<Step<P>>)
    requires CanMerge<P>(cfg, senders)
    ensures CanRun(cfg, Init(cfg), steps) && SentBy(steps, senders) && Run(cfg, Init(cfg), steps).merges != []
  {
    steps :| MergesIn(cfg, steps, senders);
  }

  lemma MoreSenders<P(!new)>(steps: seq<Step<P>>, some: set<int>, more: set<int>)
    requires SentBy(steps, some) && some <= more
    ensures SentBy(steps, more)
  {
  }

  lemma SomeSpawned(merges: seq<MergeThread>, n: nat)
    requires Spawns(merges, 0) == n && n > 0
    ensures merges != []
  {
  }

  // ----- The graph's side -----

  /** The functions without neighbours: the merger listens for each of them. */
  ghost function Awaited(o: O.Orchestrator): set<string>
    reads o
  {
    set f | f in o.neighbors && o.neighbors[f] == {}
  }

  /** The functions that packets from the first one come through. */
  ghost function Reached(o: O.Orchestrator, first: string): set<string>
    reads o
  {
    set f | f in o.neighbors && Reach(o.Edges(), first, f)
  }

  /** A constraint names the function, or it is the first one, or the last one
      of a service with some constraint. */
  ghost predicate Placed(order: set<Edge>, priorities: set<string>, first: string, last: Option<string>, f: string) {
    f == first || f in Endpoints(order) || f in priorities || (last == Some(f) && (order != {} || priorities != {}))
  }

  /** The orchestrator's graph for acyclic order constraints, a first function
      and perhaps a last one, neither of them in a constraint. */
  ghost predicate Built(o: O.Orchestrator, order: set<Edge>, priorities: set<string>, first: string, last: Option<string>,
                        rank: Rank)
    reads o
  {
    o.Valid() && first in o.neighbors && Ranked(order, rank) && ApartFrom(order, priorities, first) && last != Some(first)
    && (last.Some? ==> ApartFrom(order, priorities, last.value))
    && o.Edges() == ServiceEdges(order, priorities, Some(first), last)
  }

  lemma PlacedIsReached(order: set<Edge>, priorities: set<string>, first: string, last: Option<string>, rank: Rank, f: string)
    requires Ranked(order, rank) && Placed(order, priorities, first, last, f)
    requires last.Some? ==> first != last.value && ApartFrom(order, priorities, last.value)
    requires ApartFrom(order, priorities, first)
    ensures Reach(ServiceEdges(order, priorities, Some(first), last), first, f)
  {
    hide ServiceEdges, Endpoints, Reach;
    var edges := ServiceEdges(order, priorities, Some(first), last);
    if f == first {
      ReachSelf(edges, f);
    } else if f in Endpoints(order) || f in priorities {
      ReachedFromFirst(order, priorities, first, last, rank, f);
    } else {
      ServiceGraphShape(order, priorities, first, f, rank, f);
    }
  }

  /** A function that is not placed has no edges. */
  lemma NotPlacedIsAlone(order: set<Edge>, priorities: set<string>, first: string, last: Option<string>, f: string, e: Edge)
    requires !Placed(order, priorities, first, last, f) && e in ServiceEdges(order, priorities, Some(first), last)
    ensures e.0 != f && e.1 != f
  {
    hide ServiceEdges;
    EdgeKinds(order, priorities, first, last, e.0, e.1);
    if e in order {
      EdgeEnds(order, e.0, e.1);
    }
    assert Endpoints({}) == {};
  }

  /** Every leaf is reached from the first function exactly if every function is placed. */
  lemma AllReachedExactly(o: O.Orchestrator, order: set<Edge>, priorities: set<string>, first: string, last: Option<string>,
                          rank: Rank)
    requires Built(o, order, priorities, first, last, rank)
    ensures Awaited(o) <= Reached(o, first) <==> forall f :: f in o.neighbors ==> Placed(order, priorities, first, last, f)
  {
    hide Placed, ServiceEdges, Reach, Ranked;
    if forall f :: f in o.neighbors ==> Placed(order, priorities, first, last, f) {
      forall f | f in Awaited(o)
        ensures f in Reached(o, first)
      {
        PlacedIsReached(order, priorities, first, last, rank, f);
      }
    }
    forall f | f in o.neighbors && !Placed(order, priorities, first, last, f)
      ensures f in Awaited(o) && f !in Reached(o, first)
    {
      AloneIsLeaf(o, order, priorities, first, last, f);
    }
  }

  lemma AloneIsLeaf(o: O.Orchestrator, order: set<Edge>, priorities: set<string>, first: string, last: Option<string>, f: string)
    requires o.Valid() && o.Edges() == ServiceEdges(order, priorities, Some(first), last)
    requires f in o.neighbors && !Placed(order, priorities, first, last, f)
    ensures f in Awaited(o) && f !in Reached(o, first)
  {
    hide ServiceEdges, IsPath;
    if o.neighbors[f] != {} {
      var g := Pick(o.neighbors[f]);
      assert (f, g) in o.Edges() && (f, g).0 == f;
      NotPlacedIsAlone(order, priorities, first, last, f, (f, g));
    }
    assert f != first;
    if Reach(o.Edges(), first, f) {
      var e := LastEdge(o.Edges(), first, f);
      NotPlacedIsAlone(order, priorities, first, last, f, e);
    }
  }

  lemma LastEdge(edges: set<Edge>, a: string, b: string) returns (e: Edge)
    requires Reach(edges, a, b) && a != b
    ensures e in edges && e.1 == b
  {
    var p :| IsPath(edges, p, a, b);
    e := (p[|p| - 2], p[|p| - 2 + 1]);
  }

  /** Some leaf is always awaited. */
  lemma SomeAwaited(o: O.Orchestrator, order: set<Edge>, priorities: set<string>, first: string, last: Option<string>,
                    rank: Rank)
    requires Built(o, order, priorities, first, last, rank)
    ensures Awaited(o) != {}
  {
    hide ServiceEdges, Reach;
    var serviceRank := ServiceGraphAcyclic(order, priorities, first, last, rank);
    var l := SomeLeafBelow(o.Edges(), serviceRank, first);
    ReachedIsNode(o, first, l);
    LeafIsAwaited(o, l);
  }

  lemma LeafIsAwaited(o: O.Orchestrator, l: string)
    requires l in o.neighbors
    ensures NoOut(o.Edges(), l) <==> l in Awaited(o)
  {
    if o.neighbors[l] != {} {
      var g := Pick(o.neighbors[l]);
      assert (l, g) in o.Edges() && (l, g).0 == l;
    } else {
      assert forall e :: e in o.Edges() ==> e == (e.0, e.1);
    }
  }

  lemma ReachedIsNode(o: O.Orchestrator, a: string, b: string)
    requires o.Valid() && a in o.neighbors && Reach(o.Edges(), a, b)
    ensures b in o.neighbors
  {
    if a != b {
      var e := LastEdge(o.Edges(), a, b);
      assert e == (e.0, e.1);
    }
  }

  // ----- Together -----

  /** No two functions have the same id. */
  ghost predicate DifferentIds(ids: map<string, int>) {
    forall a, b :: a in ids && b in ids && ids[a] == ids[b] ==> a == b
  }

  ghost function IdsIn(names: set<string>, ids: map<string, int>): set<int>
    requires names <= ids.Keys
  {
    set n | n in names :: ids[n]
  }

  lemma SubsetOfIds(some: set<string>, all: set<string>, ids: map<string, int>)
    requires some <= ids.Keys && all <= ids.Keys
    requires DifferentIds(ids)
    ensures IdsIn(some, ids) <= IdsIn(all, ids) <==> some <= all
  {
    if IdsIn(some, ids) <= IdsIn(all, ids) {
      forall n | n in some
        ensures n in all
      {
        assert ids[n] in IdsIn(some, ids);
      }
    }
  }

  /** The merger of a service can ever merge a packet exactly if every function
      of the service is placed: one that no constraint names is a leaf that
      nothing is ever sent from, and no set of packets is complete without it. */
  lemma CanMergeExactly<P(!new)>(o: O.Orchestrator, order: set<Edge>, priorities: set<string>, first: string,
                                 last: Option<string>,
                                 rank: Rank, ids: map<string, int>, packet: P)
    requires Built(o, order, priorities, first, last, rank)
    requires o.neighbors.Keys <= ids.Keys && DifferentIds(ids)
    ensures Awaited(o) + Reached(o, first) <= ids.Keys
    ensures CanMerge<P>(Config(IdsIn(Awaited(o), ids), false), IdsIn(Reached(o, first), ids)) <==>
            forall f :: f in o.neighbors ==> Placed(order, priorities, first, last, f)
  {
    hide Built, Placed, Reach, CanMerge;
    SomeAwaited(o, order, priorities, first, last, rank);
    var one := Pick(Awaited(o));
    assert ids[one] in IdsIn(Awaited(o), ids);
    SubsetOfIds(Awaited(o), Reached(o, first), ids);
    AllReachedExactly(o, order, priorities, first, last, rank);
    MergesExactly(Config(IdsIn(Awaited(o), ids), false), IdsIn(Reached(o, first), ids), packet);
  }

  // ----- The loop -----

  /** The function with the given id. */
  ghost function NameOf(ids: map<string, int>, id: int): (n: string)
    requires exists n :: n in ids && ids[n] == id
    ensures n in ids && ids[n] == id
  {
    var n :| n in ids && ids[n] == id;
    n
  }

  /** The rank of the function with the given id; ids of no function rank highest. */
  ghost function IdRank(ids: map<string, int>, rank: Rank, top: nat, id: int): nat {
    if exists n :: n in ids && ids[n] == id then rank(NameOf(ids, id)) else top
  }

  lemma RankOfName(ids: map<string, int>, rank: Rank, top: nat, a: string)
    requires DifferentIds(ids) && a in ids
    ensures IdRank(ids, rank, top, ids[a]) == rank(a)
  {
  }

  lemma ParentRanksHigher(o: O.Orchestrator, rank: Rank, ids: map<string, int>, top: nat, ci: ConflictItem, pair: Edge,
                          parentOf: map<string, int>)
    requires o.Valid() && Ranked(o.Edges(), rank) && DifferentIds(ids) && O.ItemFor(ci, pair, ids, parentOf)
    requires pair.0 in o.parents && O.ParentId(o.parents[pair.0], ids, parentOf[pair.0])
    requires forall a :: a in ids ==> ids[a] != -1 && rank(a) < top
    ensures IdRank(ids, rank, top, ci.parent) > IdRank(ids, rank, top, ci.major)
  {
    RankOfName(ids, rank, top, pair.0);
    if o.parents[pair.0] != {} {
      var n :| n in o.parents[pair.0] && n in ids && ci.parent == ids[n];
      assert (n, pair.0) in o.Edges();
      RankOfName(ids, rank, top, n);
    }
  }

  lemma ListedItem(o: O.Orchestrator, ids: map<string, int>, items: seq<ConflictItem>, i: nat)
    returns (pair: Edge, parentOf: map<string, int>)
    requires O.ConflictsListed(items, o.pairToConflicts, o.parents, ids) && i < |items|
    ensures O.ItemFor(items[i], pair, ids, parentOf) && pair.0 in parentOf && pair.0 in o.parents
    ensures O.ParentId(o.parents[pair.0], ids, parentOf[pair.0])
  {
    hide O.NoRepeats, O.Grouped, O.HasPair, O.ParentId;
    var pairs;
    pairs, parentOf :| O.ListsConflicts(items, pairs, o.pairToConflicts, o.parents, ids, parentOf);
    pair := pairs[i];
    assert O.ItemFor(items[i], pairs[i], ids, parentOf);
  }

  lemma RanksUp(items: seq<ConflictItem>, rank: int -> int)
    requires forall i :: 0 <= i < |items| ==> rank(items[i].parent) > rank(items[i].major)
    ensures Upward(items, rank)
  {
  }

  /** For every list the orchestrator may produce from an acyclic graph the
      merger's loop ends, even if a constraint is of a function with itself. */
  lemma OrchestratedLoopEnds(o: O.Orchestrator, rank: Rank, ids: map<string, int>, items: seq<ConflictItem>)
    requires o.Valid() && Ranked(o.Edges(), rank) && O.ConflictsListed(items, o.pairToConflicts, o.parents, ids)
    requires DifferentIds(ids) && forall a :: a in ids ==> ids[a] != -1
    ensures EveryWalkStops(items)
  {
    hide *;
    var top := RankBound(ids.Keys, rank);
    var idRank: int -> int := id => IdRank(ids, rank, top + 1, id);
    forall i | 0 <= i < |items|
      ensures idRank(items[i].parent) > idRank(items[i].major)
    {
      var pair, parentOf := ListedItem(o, ids, items, i);
      ParentRanksHigher(o, rank, ids, top + 1, items[i], pair, parentOf);
    }
    RanksUp(items, idRank);
    UpwardListsEnd(items, idRank);
  }
}

/** The merger's threads: one per leaf and one per merge. Every interleaving is
    a sequence of steps. */
module MergeProtocol {
  import opened MergeSpec

  /** Where a leaf's thread is in its loop: it stores incoming packets under a
      lock and then tests, outside it, whether all leaves have sent theirs. */
  datatype LeafThread<P> = Listening | Received(id: int, packet: P) | AtTest(id: int, ref: nat)

  /** A merge thread looks its id up when it runs, not when it is spawned. */
  datatype Phase = Waiting | Merging(found: nat) | Done(found: nat) | Crashed

  datatype MergeThread = MergeThread(id: int, ref: nat, phase: Phase)

  /** packetMap leads from ids to inner maps; inner maps are never freed, and
      a leaf's thread keeps its pointer to one between insertion and test.
      The owner of an inner map is the id it was allocated for. */
  datatype State<P> = State(
    packetMap: map<int, nat>,
    inner: seq<map<int, P>>,
    owner: seq<int>,
    threads: map<int, LeafThread<P>>,
    merges: seq<MergeThread>)

  datatype Step<P> = Receive(leaf: int, id: int, packet: P) | Insert(leaf: int) | Test(leaf: int) | Look(i: nat) | Finish(i: nat)

  /** Is the size test made inside the critical section? It is not, in the source. */
  datatype Config = Config(leaves: set<int>, locked: bool)

  function Init<P>(cfg: Config): State<P> {
    State(map[], [], [], map l | l in cfg.leaves :: Listening, [])
  }

  predicate Allowed<P>(cfg: Config, s: State<P>, step: Step<P>) {
    match step
    case Receive(l, _, _) => l in s.threads && s.threads[l].Listening?
    case Insert(l) => l in s.threads && s.threads[l].Received?
    case Test(l) => l in s.threads && s.threads[l].AtTest?
    case Look(i) => i < |s.merges| && s.merges[i].phase.Waiting?
    case Finish(i) => i < |s.merges| && s.merges[i].phase.Merging?
  }

  /** The inner map of an id, allocated if there is none. */
  function Allocate<P>(s: State<P>, id: int): State<P> {
    if id in s.packetMap then s
    else s.(packetMap := s.packetMap[id := |s.inner|], inner := s.inner + [map[]], owner := s.owner + [id])
  }

  /** The locked section; inserting into a map does not overwrite. */
  function Store<P>(s: State<P>, l: int): (r: State<P>)
    requires l in s.threads && s.threads[l].Received?
  {
    var id := s.threads[l].id;
    var a := Allocate(s, id);
    var ref := a.packetMap[id];
    if ref >= |a.inner| then a
    else
      var stored := if l in a.inner[ref] then a.inner[ref] else a.inner[ref][l := s.threads[l].packet];
      a.(inner := a.inner[ref := stored], threads := a.threads[l := AtTest(id, ref)])
  }

  /** The size test, which spawns a merge. */
  function Tested<P>(cfg: Config, s: State<P>, l: int): State<P>
    requires l in s.threads && s.threads[l].AtTest?
  {
    var AtTest(id, ref) := s.threads[l];
    var idle := s.(threads := s.threads[l := Listening]);
    if ref < |s.inner| && |s.inner[ref]| == |cfg.leaves| then idle.(merges := s.merges + [MergeThread(id, ref, Waiting)])
    else idle
  }

  function Apply<P>(cfg: Config, s: State<P>, step: Step<P>): State<P>
    requires Allowed(cfg, s, step)
  {
    match step
    case Receive(l, id, packet) => s.(threads := s.threads[l := Received(id, packet)])
    case Insert(l) =>
      var stored := Store(s, l);
      if cfg.locked && l in stored.threads && stored.threads[l].AtTest? then Tested(cfg, stored, l) else stored
    case Test(l) => Tested(cfg, s, l)
    case Look(i) =>
      var m := s.merges[i];
      var phase := if m.id in s.packetMap then Merging(s.packetMap[m.id]) else Crashed;
      s.(merges := s.merges[i := m.(phase := phase)])
    case Finish(i) =>
      var m := s.merges[i];
      s.(merges := s.merges[i := m.(phase := Done(m.phase.found))], packetMap := s.packetMap - {m.id})
  }

  /** A leaf sends a second packet for an id before the first is merged. */
  predicate Duplicate<P>(s: State<P>, step: Step<P>) {
    step.Insert? && step.leaf in s.threads && s.threads[step.leaf].Received? &&
    var id := s.threads[step.leaf].id;
    id in s.packetMap && s.packetMap[id] < |s.inner| && step.leaf in s.inner[s.packetMap[id]]
  }

  /** A run: every step allowed when it is taken. */
  predicate CanRun<P>(cfg: Config, s: State<P>, steps: seq<Step<P>>)
    decreases |steps|
  {
    steps == [] || (Allowed(cfg, s, steps[0]) && CanRun(cfg, Apply(cfg, s, steps[0]), steps[1..]))
  }

  function Run<P>(cfg: Config, s: State<P>, steps: seq<Step<P>>): State<P>
    requires CanRun(cfg, s, steps)
    decreases |steps|
  {
    if steps == [] then s else Run(cfg, Apply(cfg, s, steps[0]), steps[1..])
  }

  predicate NoDuplicates<P>(cfg: Config, s: State<P>, steps: seq<Step<P>>)
    requires CanRun(cfg, s, steps)
    decreases |steps|
  {
    steps == [] || (!Duplicate(s, steps[0]) && NoDuplicates(cfg, Apply(cfg, s, steps[0]), steps[1..]))
  }

  // ----- Only when complete, and at least once -----

  predicate Complete<P>(cfg: Config, s: State<P>, ref: nat) {
    ref < |s.inner| && s.inner[ref].Keys == cfg.leaves
  }

  ghost predicate InnerFor<P>(s: State<P>, ref: nat, id: int) {
    ref < |s.inner| && ref < |s.owner| && s.owner[ref] == id
  }

  ghost predicate BeingTested<P>(s: State<P>, ref: nat) {
    exists l :: l in s.threads && s.threads[l].AtTest? && s.threads[l].ref == ref
  }

  ghost predicate Spawned<P>(s: State<P>, ref: nat) {
    exists i :: 0 <= i < |s.merges| && s.merges[i].ref == ref
  }

  ghost predicate Shape<P>(cfg: Config, s: State<P>) {
    && |s.owner| == |s.inner|
    && (forall l :: l in s.threads ==> l in cfg.leaves)
    && (forall r :: 0 <= r < |s.inner| ==> s.inner[r].Keys <= cfg.leaves)
    && (forall id :: id in s.packetMap ==> InnerFor(s, s.packetMap[id], id))
    && (forall l :: l in s.threads && s.threads[l].AtTest? ==>
          InnerFor(s, s.threads[l].ref, s.threads[l].id) && l in s.inner[s.threads[l].ref])
  }

  /** Every merge was spawned for a complete set of packets of its own id. */
  ghost predicate SpawnedComplete<P>(cfg: Config, s: State<P>) {
    forall i :: 0 <= i < |s.merges| ==> InnerFor(s, s.merges[i].ref, s.merges[i].id) && Complete(cfg, s, s.merges[i].ref)
  }

  /** A complete set of packets has a merge, or some thread is still to test it. */
  ghost predicate NoneForgotten<P>(cfg: Config, s: State<P>) {
    forall r: nat :: Complete(cfg, s, r) ==> Spawned(s, r) || BeingTested(s, r)
  }

  ghost predicate Inv<P>(cfg: Config, s: State<P>) {
    cfg.leaves != {} && Shape(cfg, s) && SpawnedComplete(cfg, s) && NoneForgotten(cfg, s)
  }

  lemma SizeMeansAll<T>(some: set<T>, all: set<T>)
    requires some <= all
    ensures |some| == |all| <==> some == all
  {
    if some != all {
      assert all == some + (all - some) && |all| == |some| + |all - some|;
      assert all - some != {};
    }
  }

  lemma AllocateInv<P>(cfg: Config, s: State<P>, id: int)
    requires Inv(cfg, s)
    ensures Inv(cfg, Allocate(s, id)) && id in Allocate(s, id).packetMap
    ensures InnerFor(Allocate(s, id), Allocate(s, id).packetMap[id], id)
    ensures Allocate(s, id).threads == s.threads && Allocate(s, id).merges == s.merges
  {
    var a := Allocate(s, id);
    if id !in s.packetMap {
      forall r: nat | Complete(cfg, a, r)
        ensures Spawned(a, r) || BeingTested(a, r)
      {
        assert a.inner[|s.inner|] == map[];
        assert Complete(cfg, s, r);
      }
    }
  }

  lemma StoreInv<P>(cfg: Config, s: State<P>, l: int)
    requires Inv(cfg, s) && l in s.threads && s.threads[l].Received?
    ensures Inv(cfg, Store(s, l))
    ensures l in Store(s, l).threads && Store(s, l).threads[l].AtTest?
  {
    hide Spawned, BeingTested, Complete;
    var id := s.threads[l].id;
    var a := Allocate(s, id);
    AllocateInv(cfg, s, id);
    var ref := a.packetMap[id];
    var r := Store(s, l);
    assert l in r.inner[ref] && r.inner[ref].Keys == a.inner[ref].Keys + {l};
    forall k: nat | Complete(cfg, r, k)
      ensures Spawned(r, k) || BeingTested(r, k)
    {
      if k == ref {
        NowTested(r, l);
      } else {
        OtherComplete(cfg, a, r, k);
        StillTested(a, r, l, k);
      }
    }
    forall k: nat | Complete(cfg, a, k)
      ensures Complete(cfg, r, k)
    {
      StaysComplete(cfg, a, r, ref, l, k);
    }
  }

  lemma NowTested<P>(r: State<P>, l: int)
    requires l in r.threads && r.threads[l].AtTest?
    ensures BeingTested(r, r.threads[l].ref)
  {
  }

  lemma OtherComplete<P>(cfg: Config, a: State<P>, r: State<P>, k: nat)
    requires Complete(cfg, r, k) && |r.inner| == |a.inner| && (k < |a.inner| ==> r.inner[k] == a.inner[k])
    ensures Complete(cfg, a, k)
  {
  }

  lemma StaysComplete<P>(cfg: Config, a: State<P>, r: State<P>, ref: nat, l: int, k: nat)
    requires Complete(cfg, a, k) && |r.inner| == |a.inner| && ref < |a.inner| && l in cfg.leaves
    requires r.inner[ref].Keys == a.inner[ref].Keys + {l} && (k < |a.inner| && k != ref ==> r.inner[k] == a.inner[k])
    ensures Complete(cfg, r, k)
  {
  }

  lemma StillTested<P>(a: State<P>, r: State<P>, l: int, k: nat)
    requires Spawned(a, k) || BeingTested(a, k)
    requires l in a.threads && !a.threads[l].AtTest?
    requires r.merges == a.merges && forall j :: j in a.threads && j != l ==> j in r.threads && r.threads[j] == a.threads[j]
    ensures Spawned(r, k) || BeingTested(r, k)
  {
    if !Spawned(a, k) {
      var j :| j in a.threads && a.threads[j].AtTest? && a.threads[j].ref == k;
      assert j in r.threads && r.threads[j].ref == k;
    } else {
      assert Spawned(r, k);
    }
  }

  lemma TestedInv<P>(cfg: Config, s: State<P>, l: int)
    requires Inv(cfg, s) && l in s.threads && s.threads[l].AtTest?
    ensures Inv(cfg, Tested(cfg, s, l))
  {
    var AtTest(id, ref) := s.threads[l];
    var r := Tested(cfg, s, l);
    SizeMeansAll(s.inner[ref].Keys, cfg.leaves);
    assert |s.inner[ref].Keys| == |s.inner[ref]|;
    forall k: nat | Complete(cfg, r, k)
      ensures Spawned(r, k) || BeingTested(r, k)
    {
      assert Complete(cfg, s, k);
      if k == ref {
        assert r.merges[|s.merges|].ref == ref;
      } else if Spawned(s, k) {
        var i :| 0 <= i < |s.merges| && s.merges[i].ref == k;
        assert r.merges[i].ref == k;
      } else {
        var j :| j in s.threads && s.threads[j].AtTest? && s.threads[j].ref == k;
        assert j in r.threads && r.threads[j] == s.threads[j];
      }
    }
  }

  lemma MergeStepInv<P>(cfg: Config, s: State<P>, r: State<P>, i: nat)
    requires Inv(cfg, s) && i < |s.merges|
    requires r.inner == s.inner && r.owner == s.owner && r.threads == s.threads
    requires |r.merges| == |s.merges|
    requires forall j :: 0 <= j < |s.merges| ==> r.merges[j].id == s.merges[j].id && r.merges[j].ref == s.merges[j].ref
    requires forall id :: id in r.packetMap ==> id in s.packetMap && r.packetMap[id] == s.packetMap[id]
    ensures Inv(cfg, r)
  {
    forall k: nat | Complete(cfg, r, k)
      ensures Spawned(r, k) || BeingTested(r, k)
    {
      assert Complete(cfg, s, k);
      if Spawned(s, k) {
        var j :| 0 <= j < |s.merges| && s.merges[j].ref == k;
        assert r.merges[j].ref == k;
      } else {
        assert BeingTested(s, k);
        assert BeingTested(r, k);
      }
    }
  }

  lemma StepInv<P>(cfg: Config, s: State<P>, step: Step<P>)
    requires Inv(cfg, s) && Allowed(cfg, s, step)
    ensures Inv(cfg, Apply(cfg, s, step))
  {
    match step
    case Receive(l, id, packet) =>
      var r := Apply(cfg, s, step);
      forall k: nat | Complete(cfg, r, k)
        ensures Spawned(r, k) || BeingTested(r, k)
      {
        assert Complete(cfg, s, k);
        StillTested(s, r, l, k);
      }
    case Insert(l) =>
      StoreInv(cfg, s, l);
      if cfg.locked {
        TestedInv(cfg, Store(s, l), l);
      }
    case Test(l) => TestedInv(cfg, s, l);
    case Look(i) => MergeStepInv(cfg, s, Apply(cfg, s, step), i);
    case Finish(i) => MergeStepInv(cfg, s, Apply(cfg, s, step), i);
  }

  lemma {:induction false} RunInv<P>(cfg: Config, s: State<P>, steps: seq<Step<P>>)
    requires Inv(cfg, s) && CanRun(cfg, s, steps)
    ensures Inv(cfg, Run(cfg, s, steps))
    decreases |steps|
  {
    if steps == [] {
    } else {
      StepInv(cfg, s, steps[0]);
      RunInv(cfg, Apply(cfg, s, steps[0]), steps[1..]);
    }
  }

  /** In every run, locked test or not, duplicates or not: a merge is spawned
      only for a complete set of packets of its id, and once no leaf's thread
      has a complete set still to test, that set has had its merge. */
  lemma SpawnedOnlyWhenComplete<P>(cfg: Config, steps: seq<Step<P>>)
    requires cfg.leaves != {} && CanRun(cfg, Init(cfg), steps)
    ensures var end: State<P> := Run(cfg, Init(cfg), steps);
      && (forall i :: 0 <= i < |end.merges| ==>
            InnerFor(end, end.merges[i].ref, end.merges[i].id) && Complete(cfg, end, end.merges[i].ref))
      && (forall r: nat :: Complete(cfg, end, r) && !BeingTested(end, r) ==> Spawned(end, r))
  {
    RunInv(cfg, Init(cfg), steps);
  }

  // ----- What is stored was sent -----

  /** Every stored packet, and every packet a thread holds, was received from
      that leaf for that id. */
  ghost predicate Heard<P(!new)>(s: State<P>, past: seq<Step<P>>) {
    (forall r, l :: 0 <= r < |s.inner| && r < |s.owner| && l in s.inner[r] ==> Receive(l, s.owner[r], s.inner[r][l]) in past)
    && (forall l :: l in s.threads && s.threads[l].Received? ==> Receive(l, s.threads[l].id, s.threads[l].packet) in past)
  }

  lemma StepHeard<P(!new)>(cfg: Config, s: State<P>, step: Step<P>, past: seq<Step<P>>)
    requires Inv(cfg, s) && Allowed(cfg, s, step) && Heard(s, past)
    ensures Heard(Apply(cfg, s, step), past + [step])
  {
    hide Heard, Inv, Store, Tested;
    HeardMore(s, past, step);
    var now := past + [step];
    match step
    case Receive(l, id, packet) => ReceiveHeard(s, l, id, packet, now);
    case Insert(l) =>
      StoreHeard(cfg, s, l, now);
      var stored := Store(s, l);
      if l in stored.threads && stored.threads[l].AtTest? {
        TestedHeard(cfg, stored, l, now);
      }
    case Test(l) => TestedHeard(cfg, s, l, now);
    case Look(_) => MergesUnheard(s, Apply(cfg, s, step), now);
    case Finish(_) => MergesUnheard(s, Apply(cfg, s, step), now);
  }

  lemma HeardMore<P(!new)>(s: State<P>, past: seq<Step<P>>, step: Step<P>)
    requires Heard(s, past)
    ensures Heard(s, past + [step]) && step in past + [step]
  {
    var now := past + [step];
    assert now[|past|] == step;
    assert forall x :: x in past ==> x in now;
  }

  lemma ReceiveHeard<P(!new)>(s: State<P>, l: int, id: int, packet: P, now: seq<Step<P>>)
    requires Heard(s, now) && Receive(l, id, packet) in now
    ensures Heard(s.(threads := s.threads[l := Received(id, packet)]), now)
  {
  }

  lemma TestedHeard<P(!new)>(cfg: Config, s: State<P>, l: int, now: seq<Step<P>>)
    requires Heard(s, now) && l in s.threads && s.threads[l].AtTest?
    ensures Heard(Tested(cfg, s, l), now)
  {
  }

  /** What the merge threads do says nothing about stored packets. */
  lemma MergesUnheard<P(!new)>(s: State<P>, e: State<P>, now: seq<Step<P>>)
    requires Heard(s, now) && e.inner == s.inner && e.owner == s.owner && e.threads == s.threads
    ensures Heard(e, now)
  {
  }

  lemma StoreHeard<P(!new)>(cfg: Config, s: State<P>, l: int, now: seq<Step<P>>)
    requires Inv(cfg, s) && l in s.threads && s.threads[l].Received? && Heard(s, now)
    ensures Heard(Store(s, l), now)
  {
    var id := s.threads[l].id;
    var a := Allocate(s, id);
    AllocateInv(cfg, s, id);
    assert Heard(a, now);
  }

  lemma {:induction false} RunHeard<P(!new)>(cfg: Config, s: State<P>, steps: seq<Step<P>>, past: seq<Step<P>>)
    requires Inv(cfg, s) && CanRun(cfg, s, steps) && Heard(s, past)
    ensures Heard(Run(cfg, s, steps), past + steps)
    decreases |steps|
  {
    if steps == [] {
      assert past + steps == past;
    } else {
      StepInv(cfg, s, steps[0]);
      StepHeard(cfg, s, steps[0], past);
      RunHeard(cfg, Apply(cfg, s, steps[0]), steps[1..], past + [steps[0]]);
      assert (past + [steps[0]]) + steps[1..] == past + steps;
    }
  }

  /** What a merge is spawned for: one packet of its id from every leaf, each
      of them received in the run. */
  lemma SpawnedForReceivedPackets<P(!new)>(cfg: Config, steps: seq<Step<P>>, i: nat, leaf: int)
    requires cfg.leaves != {} && CanRun(cfg, Init(cfg), steps)
    requires i < |Run(cfg, Init(cfg), steps).merges| && leaf in cfg.leaves
    ensures var end: State<P> := Run(cfg, Init(cfg), steps);
      var m := end.merges[i];
      m.ref < |end.inner| && leaf in end.inner[m.ref] && Receive(leaf, m.id, end.inner[m.ref][leaf]) in steps
  {
    var end: State<P> := Run(cfg, Init(cfg), steps);
    RunInv(cfg, Init(cfg), steps);
    RunHeard(cfg, Init(cfg), steps, []);
    assert [] + steps == steps;
    assert InnerFor(end, end.merges[i].ref, end.merges[i].id) && Complete(cfg, end, end.merges[i].ref);
  }

  // ----- A test is of the leaf's own set -----

  /** A leaf tests the set it has stored its packet in, even if the id has
      meanwhile been erased or given to another set. */
  lemma TestIgnoresPacketMap<P>(cfg: Config, s: State<P>, l: int, other: map<int, nat>)
    requires Inv(cfg, s) && Allowed(cfg, s, Test(l))
    ensures Allowed(cfg, s.(packetMap := other), Test(l))
    ensures Apply(cfg, s.(packetMap := other), Test(l)) == Apply(cfg, s, Test(l)).(packetMap := other)
    ensures |Apply(cfg, s, Test(l)).merges| == |s.merges| + if Complete(cfg, s, s.threads[l].ref) then 1 else 0
  {
    SizeMeansAll(s.inner[s.threads[l].ref].Keys, cfg.leaves);
    assert |s.inner[s.threads[l].ref].Keys| == |s.inner[s.threads[l].ref]|;
  }

  // ----- The first packet stays -----

  /** Leaf l's packet in the inner map, if it is there. */
  ghost predicate Holds<P(!new)>(s: State<P>, ref: nat, l: int, packet: P) {
    ref < |s.inner| && l in s.inner[ref] && s.inner[ref][l] == packet
  }

  lemma StoreHolds<P(!new)>(cfg: Config, s: State<P>, l: int, ref: nat, k: int, packet: P)
    requires Inv(cfg, s) && l in s.threads && s.threads[l].Received? && Holds(s, ref, k, packet)
    ensures Holds(Store(s, l), ref, k, packet)
  {
    AllocateInv(cfg, s, s.threads[l].id);
    assert Holds(Allocate(s, s.threads[l].id), ref, k, packet);
  }

  lemma StepHolds<P(!new)>(cfg: Config, s: State<P>, step: Step<P>, ref: nat, k: int, packet: P)
    requires Inv(cfg, s) && Allowed(cfg, s, step) && Holds(s, ref, k, packet)
    ensures Holds(Apply(cfg, s, step), ref, k, packet)
  {
    hide Store, Inv;
    if step.Insert? {
      StoreHolds(cfg, s, step.leaf, ref, k, packet);
    }
  }

  lemma {:induction false} RunHolds<P(!new)>(cfg: Config, s: State<P>, steps: seq<Step<P>>, ref: nat, k: int, packet: P)
    requires Inv(cfg, s) && CanRun(cfg, s, steps) && Holds(s, ref, k, packet)
    ensures Holds(Run(cfg, s, steps), ref, k, packet)
    decreases |steps|
  {
    hide Apply, Inv, Holds;
    if steps == [] {
    } else {
      StepInv(cfg, s, steps[0]);
      StepHolds(cfg, s, steps[0], ref, k, packet);
      RunHolds(cfg, Apply(cfg, s, steps[0]), steps[1..], ref, k, packet);
    }
  }

  lemma StoresFirst<P(!new)>(cfg: Config, s: State<P>, l: int) returns (ref: nat)
    requires Inv(cfg, s) && Allowed(cfg, s, Insert(l))
    requires var id := s.threads[l].id; id in s.packetMap ==> !(s.packetMap[id] < |s.inner| && l in s.inner[s.packetMap[id]])
    ensures var e := Apply(cfg, s, Insert(l));
      s.threads[l].id in e.packetMap && e.packetMap[s.threads[l].id] == ref && Holds(e, ref, l, s.threads[l].packet)
  {
    AllocateInv(cfg, s, s.threads[l].id);
    ref := Allocate(s, s.threads[l].id).packetMap[s.threads[l].id];
  }

  /** The packet stored for a leaf under an id is the first one inserted there,
      however many more the leaf sends under that id and whatever else happens. */
  lemma FirstPacketStays<P(!new)>(cfg: Config, s: State<P>, l: int, steps: seq<Step<P>>) returns (ref: nat)
    requires Inv(cfg, s) && Allowed(cfg, s, Insert(l))
    requires var id := s.threads[l].id; id in s.packetMap ==> !(s.packetMap[id] < |s.inner| && l in s.inner[s.packetMap[id]])
    requires CanRun(cfg, Apply(cfg, s, Insert(l)), steps)
    ensures var e := Apply(cfg, s, Insert(l)); s.threads[l].id in e.packetMap && e.packetMap[s.threads[l].id] == ref
    ensures Holds(Run(cfg, Apply(cfg, s, Insert(l)), steps), ref, l, s.threads[l].packet)
  {
    hide Inv, Holds, Apply;
    ref := StoresFirst(cfg, s, l);
    StepInv(cfg, s, Insert(l));
    RunHolds(cfg, Apply(cfg, s, Insert(l)), steps, ref, l, s.threads[l].packet);
  }

  // ----- Exactly once, with the test inside the critical section -----

  /** The merges spawned for one inner map. */
  function Spawns(merges: seq<MergeThread>, ref: nat): nat {
    if merges == [] then 0 else (if merges[0].ref == ref then 1 else 0) + Spawns(merges[1..], ref)
  }

  lemma {:induction false} SpawnsAppend(merges: seq<MergeThread>, m: MergeThread, ref: nat)
    ensures Spawns(merges + [m], ref) == Spawns(merges, ref) + if m.ref == ref then 1 else 0
  {
    if merges == [] {
      assert merges + [m] == [m];
    } else {
      assert (merges + [m])[1..] == merges[1..] + [m];
      SpawnsAppend(merges[1..], m, ref);
    }
  }

  lemma {:induction false} SpawnsSame(merges: seq<MergeThread>, merges': seq<MergeThread>, ref: nat)
    requires |merges| == |merges'|
    requires forall j :: 0 <= j < |merges| ==> merges'[j].ref == merges[j].ref
    ensures Spawns(merges', ref) == Spawns(merges, ref)
  {
    if merges == [] {
    } else {
      SpawnsSame(merges[1..], merges'[1..], ref);
    }
  }

  lemma {:induction false} SpawnsPositive(merges: seq<MergeThread>, ref: nat, i: nat)
    requires i < |merges| && merges[i].ref == ref
    ensures Spawns(merges, ref) >= 1
    ensures forall j :: 0 <= j < |merges| && j != i && merges[j].ref == ref ==> Spawns(merges, ref) >= 2
  {
    if i > 0 {
      SpawnsPositive(merges[1..], ref, i - 1);
      assert forall j :: 1 <= j < |merges| ==> merges[j] == merges[1..][j - 1];
    } else {
      forall j | 0 <= j < |merges| && j != i && merges[j].ref == ref
        ensures Spawns(merges, ref) >= 2
      {
        SpawnsPositive(merges[1..], ref, j - 1);
      }
    }
  }

  /** Each merge still to finish finds the inner map it was spawned for, and none has crashed. */
  ghost predicate OnTrack<P>(s: State<P>, m: MergeThread) {
    match m.phase
    case Waiting => m.id in s.packetMap && s.packetMap[m.id] == m.ref
    case Merging(found) => found == m.ref && m.id in s.packetMap && s.packetMap[m.id] == m.ref
    case Done(found) => found == m.ref
    case Crashed => false
  }

  ghost predicate Exact<P>(cfg: Config, s: State<P>) {
    Inv(cfg, s)
    && (forall l :: l in s.threads ==> !s.threads[l].AtTest?)
    && (forall r: nat :: Spawns(s.merges, r) == if Complete(cfg, s, r) then 1 else 0)
    && (forall i :: 0 <= i < |s.merges| ==> OnTrack(s, s.merges[i]))
  }

  /** What an insertion that is no duplicate does to the inner maps. */
  lemma InsertEffect<P>(cfg: Config, s: State<P>, l: int)
    requires Inv(cfg, s) && l in s.threads && s.threads[l].Received? && !Duplicate(s, Insert(l))
    ensures var id, st := s.threads[l].id, Store(s, l);
      && id in st.packetMap && st.threads[l] == AtTest(id, st.packetMap[id]) && st.packetMap[id] < |st.inner|
      && (forall k: nat :: k != st.packetMap[id] ==> (Complete(cfg, st, k) <==> Complete(cfg, s, k)))
      && !Complete(cfg, s, st.packetMap[id])
      && (Complete(cfg, st, st.packetMap[id]) <==> |st.inner[st.packetMap[id]]| == |cfg.leaves|)
  {
    var id := s.threads[l].id;
    var a, st := Allocate(s, id), Store(s, l);
    AllocateInv(cfg, s, id);
    StoreInv(cfg, s, l);
    var ref := a.packetMap[id];
    assert l !in a.inner[ref];
    assert id !in s.packetMap ==> a.inner[ref] == map[];
    SizeMeansAll(st.inner[ref].Keys, cfg.leaves);
    assert |st.inner[ref].Keys| == |st.inner[ref]|;
  }

  lemma StoreKeepsMerges<P>(s: State<P>, l: int)
    requires l in s.threads && s.threads[l].Received?
    ensures Store(s, l).merges == s.merges && l in Store(s, l).threads
  {
  }

  lemma InsertCounts<P>(cfg: Config, s: State<P>, l: int, k: nat)
    requires cfg.locked && Exact(cfg, s) && Allowed(cfg, s, Insert(l)) && !Duplicate(s, Insert(l))
    ensures Spawns(Apply(cfg, s, Insert(l)).merges, k) == if Complete(cfg, Apply(cfg, s, Insert(l)), k) then 1 else 0
  {
    hide Inv, OnTrack, Duplicate, Store;
    var st, r := Store(s, l), Apply(cfg, s, Insert(l));
    InsertEffect(cfg, s, l);
    StoreKeepsMerges(s, l);
    SpawnsAppend(s.merges, MergeThread(s.threads[l].id, st.packetMap[s.threads[l].id], Waiting), k);
    assert Spawns(s.merges, k) == if Complete(cfg, s, k) then 1 else 0;
    assert r.inner == st.inner && (Complete(cfg, r, k) <==> Complete(cfg, st, k));
  }

  lemma ExactInsert<P>(cfg: Config, s: State<P>, l: int)
    requires cfg.locked && Exact(cfg, s) && Allowed(cfg, s, Insert(l)) && !Duplicate(s, Insert(l))
    ensures Exact(cfg, Apply(cfg, s, Insert(l)))
  {
    var r := Apply(cfg, s, Insert(l));
    StepInv(cfg, s, Insert(l));
    forall k: nat
      ensures Spawns(r.merges, k) == if Complete(cfg, r, k) then 1 else 0
    {
      InsertCounts(cfg, s, l, k);
    }
    forall i | 0 <= i < |r.merges|
      ensures OnTrack(r, r.merges[i])
    {
      InsertOnTrack(cfg, s, l, i);
    }
    InsertIdle(cfg, s, l);
    hide Spawns, Complete, Inv, OnTrack, Apply, Allowed, Duplicate;
  }

  lemma InsertIdle<P>(cfg: Config, s: State<P>, l: int)
    requires cfg.locked && Exact(cfg, s) && Allowed(cfg, s, Insert(l)) && !Duplicate(s, Insert(l))
    ensures forall k :: k in Apply(cfg, s, Insert(l)).threads ==> !Apply(cfg, s, Insert(l)).threads[k].AtTest?
  {
    hide Spawns, Complete, OnTrack;
    InsertEffect(cfg, s, l);
  }

  lemma InsertOnTrack<P>(cfg: Config, s: State<P>, l: int, i: nat)
    requires cfg.locked && Exact(cfg, s) && Allowed(cfg, s, Insert(l)) && !Duplicate(s, Insert(l))
    requires i < |Apply(cfg, s, Insert(l)).merges|
    ensures OnTrack(Apply(cfg, s, Insert(l)), Apply(cfg, s, Insert(l)).merges[i])
  {
    hide Spawns, Complete;
    InsertEffect(cfg, s, l);
    if i < |s.merges| {
      assert OnTrack(s, s.merges[i]);
    }
  }

  lemma ExactMergeStep<P>(cfg: Config, s: State<P>, step: Step<P>)
    requires Exact(cfg, s) && Allowed(cfg, s, step) && (step.Look? || step.Finish?)
    ensures Exact(cfg, Apply(cfg, s, step))
  {
    var r, i := Apply(cfg, s, step), step.i;
    StepInv(cfg, s, step);
    forall k: nat
      ensures Spawns(r.merges, k) == if Complete(cfg, r, k) then 1 else 0
    {
      SpawnsSame(s.merges, r.merges, k);
      assert Complete(cfg, r, k) <==> Complete(cfg, s, k);
    }
    assert OnTrack(s, s.merges[i]);
    forall j | 0 <= j < |s.merges|
      ensures OnTrack(r, r.merges[j])
    {
      assert OnTrack(s, s.merges[j]);
      if j != i && step.Finish? && s.merges[j].id == s.merges[i].id && !s.merges[j].phase.Done? {
        assert Spawns(s.merges, s.merges[i].ref) <= 1;
        SpawnsPositive(s.merges, s.merges[i].ref, i);
        assert false;
      }
    }
  }

  lemma {:induction false} RunExact<P>(cfg: Config, s: State<P>, steps: seq<Step<P>>)
    requires cfg.locked && Exact(cfg, s) && CanRun(cfg, s, steps) && NoDuplicates(cfg, s, steps)
    ensures Exact(cfg, Run(cfg, s, steps))
    decreases |steps|
  {
    if steps == [] {
    } else {
      match steps[0] {
        case Receive(l, id, packet) =>
          StepInv(cfg, s, steps[0]);
          assert forall k: nat :: Complete(cfg, Apply(cfg, s, steps[0]), k) <==> Complete(cfg, s, k);
          assert forall i :: 0 <= i < |s.merges| ==> (OnTrack(Apply(cfg, s, steps[0]), s.merges[i]) <==> OnTrack(s, s.merges[i]));
        case Insert(l) => ExactInsert(cfg, s, l);
        case Test(l) => assert false;
        case Look(i) => ExactMergeStep(cfg, s, steps[0]);
        case Finish(i) => ExactMergeStep(cfg, s, steps[0]);
      }
      RunExact(cfg, Apply(cfg, s, steps[0]), steps[1..]);
    }
  }

  /** If the test were made inside the critical section, then in every run
      without duplicate deliveries each complete set of packets would have
      exactly one merge, no merge thread would crash, and each would merge
      the very set it was spawned for. */
  lemma ExactlyOnceIfLocked<P>(cfg: Config, steps: seq<Step<P>>)
    requires cfg.locked && cfg.leaves != {} && CanRun(cfg, Init(cfg), steps) && NoDuplicates(cfg, Init(cfg), steps)
    ensures var end: State<P> := Run(cfg, Init(cfg), steps);
      && (forall r: nat :: Spawns(end.merges, r) == if Complete(cfg, end, r) then 1 else 0)
      && (forall i :: 0 <= i < |end.merges| ==> !end.merges[i].phase.Crashed?)
      && (forall i :: 0 <= i < |end.merges| && end.merges[i].phase.Done? ==>
            end.merges[i].phase.found == end.merges[i].ref && Complete(cfg, end, end.merges[i].ref))
  {
    var start: State<P> := Init(cfg);
    RunExact(cfg, start, steps);
    var end: State<P> := Run(cfg, start, steps);
    assert forall i :: 0 <= i < |end.merges| ==> OnTrack(end, end.merges[i]);
  }

  // ----- As it is: the test outside the critical section -----

  ghost function Testing<P>(s: State<P>, ref: nat): set<int> {
    set l | l in s.threads && s.threads[l].AtTest? && s.threads[l].ref == ref
  }

  /** Each leaf that has stored its packet spawns one merge at most, when it tests. */
  ghost predicate Bounded<P>(s: State<P>) {
    forall r: nat :: Spawns(s.merges, r) + |Testing(s, r)| <= if r < |s.inner| then |s.inner[r]| else 0
  }

  /** Where the packet goes: an inner map that has none of that leaf's yet. */
  lemma RoomForLeaf<P>(cfg: Config, s: State<P>, l: int)
    requires Inv(cfg, s) && l in s.threads && s.threads[l].Received? && !Duplicate(s, Insert(l))
    ensures var a := Allocate(s, s.threads[l].id);
      && s.threads[l].id in a.packetMap && a.packetMap[s.threads[l].id] < |a.inner| && l !in a.inner[a.packetMap[s.threads[l].id]]
      && a.threads == s.threads && a.merges == s.merges
      && (a.inner == s.inner || (a.packetMap[s.threads[l].id] == |s.inner| && a.inner == s.inner + [map[]]))
  {
    AllocateInv(cfg, s, s.threads[l].id);
  }

  lemma InsertSizes<P>(cfg: Config, s: State<P>, l: int, r: nat)
    requires Inv(cfg, s) && l in s.threads && s.threads[l].Received? && !Duplicate(s, Insert(l))
    ensures var st := Store(s, l);
      && s.threads[l].id in st.packetMap && st.threads == s.threads[l := AtTest(s.threads[l].id, st.packetMap[s.threads[l].id])]
      && st.merges == s.merges
      && (if r < |st.inner| then |st.inner[r]| else 0) ==
         (if r < |s.inner| then |s.inner[r]| else 0) + (if r == st.packetMap[s.threads[l].id] then 1 else 0)
  {
    hide Inv, Allocate, Duplicate;
    RoomForLeaf(cfg, s, l);
    var id := s.threads[l].id;
    var a, st := Allocate(s, id), Store(s, l);
    var ref := a.packetMap[id];
    assert st.inner[ref].Keys == a.inner[ref].Keys + {l};
    assert |st.inner[ref].Keys| == |st.inner[ref]| && |a.inner[ref].Keys| == |a.inner[ref]|;
  }

  lemma InsertBounded<P>(cfg: Config, s: State<P>, l: int, r: nat)
    requires !cfg.locked && Inv(cfg, s) && Bounded(s) && Allowed(cfg, s, Insert(l)) && !Duplicate(s, Insert(l))
    ensures var e := Apply(cfg, s, Insert(l));
            Spawns(e.merges, r) + |Testing(e, r)| <= if r < |e.inner| then |e.inner[r]| else 0
  {
    var e := Store(s, l);
    InsertSizes(cfg, s, l, r);
    assert Spawns(s.merges, r) + |Testing(s, r)| <= if r < |s.inner| then |s.inner[r]| else 0;
    TestingAfter(s, e, l, s.threads[l].id, e.packetMap[s.threads[l].id], r);
    hide Inv, Bounded, Store, Testing, Duplicate;
  }

  lemma TestingAfter<P>(s: State<P>, e: State<P>, l: int, id: int, ref: nat, r: nat)
    requires l in s.threads && s.threads[l].Received? && e.threads == s.threads[l := AtTest(id, ref)]
    ensures |Testing(e, r)| == |Testing(s, r)| + if r == ref then 1 else 0
  {
    if r == ref {
      assert Testing(e, r) == Testing(s, r) + {l};
    } else {
      assert Testing(e, r) == Testing(s, r);
    }
  }

  lemma TestBounded<P>(cfg: Config, s: State<P>, l: int, r: nat)
    requires Bounded(s) && Allowed(cfg, s, Test(l))
    ensures var e := Apply(cfg, s, Test(l));
            Spawns(e.merges, r) + |Testing(e, r)| <= if r < |e.inner| then |e.inner[r]| else 0
  {
    var AtTest(id, ref) := s.threads[l];
    var e := Apply(cfg, s, Test(l));
    SpawnsAppend(s.merges, MergeThread(id, ref, Waiting), r);
    assert Spawns(s.merges, r) + |Testing(s, r)| <= if r < |s.inner| then |s.inner[r]| else 0;
    if r == ref {
      assert l in Testing(s, r);
      assert Testing(e, r) == Testing(s, r) - {l};
    } else {
      assert Testing(e, r) == Testing(s, r);
    }
  }

  lemma StepBounded<P>(cfg: Config, s: State<P>, step: Step<P>)
    requires !cfg.locked && Inv(cfg, s) && Bounded(s) && Allowed(cfg, s, step) && !Duplicate(s, step)
    ensures Bounded(Apply(cfg, s, step))
  {
    var e := Apply(cfg, s, step);
    forall r: nat
      ensures Spawns(e.merges, r) + |Testing(e, r)| <= if r < |e.inner| then |e.inner[r]| else 0
    {
      match step
      case Receive(l, _, _) =>
        assert Testing(e, r) == Testing(s, r);
      case Insert(l) => InsertBounded(cfg, s, l, r);
      case Test(l) => TestBounded(cfg, s, l, r);
      case Look(i) =>
        SpawnsSame(s.merges, e.merges, r);
        assert Testing(e, r) == Testing(s, r);
      case Finish(i) =>
        SpawnsSame(s.merges, e.merges, r);
        assert Testing(e, r) == Testing(s, r);
    }
  }

  lemma {:induction false} RunBounded<P>(cfg: Config, s: State<P>, steps: seq<Step<P>>)
    requires !cfg.locked && Inv(cfg, s) && Bounded(s) && CanRun(cfg, s, steps) && NoDuplicates(cfg, s, steps)
    ensures Bounded(Run(cfg, s, steps)) && Inv(cfg, Run(cfg, s, steps))
    decreases |steps|
  {
    if steps == [] {
    } else {
      StepInv(cfg, s, steps[0]);
      StepBounded(cfg, s, steps[0]);
      RunBounded(cfg, Apply(cfg, s, steps[0]), steps[1..]);
    }
  }

  /** With the test outside the critical section and no duplicate deliveries,
      a complete set that no thread is still to test has at least one merge
      and at most one for each leaf; an incomplete set has none. */
  lemma SpawnsAsWritten<P>(cfg: Config, steps: seq<Step<P>>, ref: nat)
    requires !cfg.locked && cfg.leaves != {} && CanRun(cfg, Init(cfg), steps) && NoDuplicates(cfg, Init(cfg), steps)
    ensures var end: State<P> := Run(cfg, Init(cfg), steps);
      && (Complete(cfg, end, ref) && !BeingTested(end, ref) ==> 1 <= Spawns(end.merges, ref))
      && Spawns(end.merges, ref) <= |cfg.leaves|
      && (!Complete(cfg, end, ref) ==> Spawns(end.merges, ref) == 0)
  {
    var start: State<P> := Init(cfg);
    forall r: nat
      ensures |Testing(start, r)| == 0
    {
      assert Testing(start, r) == {};
    }
    RunBounded(cfg, start, steps);
    var end: State<P> := Run(cfg, start, steps);
    assert Spawns(end.merges, ref) + |Testing(end, ref)| <= if ref < |end.inner| then |end.inner[ref]| else 0;
    if ref < |end.inner| {
      SizeMeansAll(end.inner[ref].Keys, cfg.leaves);
      assert |end.inner[ref].Keys| == |end.inner[ref]|;
      SubsetSize(end.inner[ref].Keys, cfg.leaves);
    }
    if Spawned(end, ref) {
      var i :| 0 <= i < |end.merges| && end.merges[i].ref == ref;
      SpawnsPositive(end.merges, ref, i);
      assert Complete(cfg, end, end.merges[i].ref);
    } else {
      NoSpawns(end.merges, ref);
    }
  }

  lemma SubsetSize<T>(some: set<T>, all: set<T>)
    requires some <= all
    ensures |some| <= |all|
  {
    assert all == some + (all - some);
  }

  lemma {:induction false} NoSpawns(merges: seq<MergeThread>, ref: nat)
    requires forall i :: 0 <= i < |merges| ==> merges[i].ref != ref
    ensures Spawns(merges, ref) == 0
  {
    if merges == [] {
    } else {
      NoSpawns(merges[1..], ref);
    }
  }

  // ----- Exactly when there is exactly one merge -----

  /** In every run without duplicate deliveries, a complete set that no thread
      is still to test has exactly one merge. */
  ghost predicate AlwaysOnce<P(!new)>(cfg: Config) {
    forall steps: seq<Step<P>>, ref: nat :: CanRun(cfg, Init(cfg), steps) && NoDuplicates(cfg, Init(cfg), steps) ==>
      OnceAt(cfg, Run(cfg, Init(cfg), steps), ref)
  }

  ghost predicate OnceAt<P>(cfg: Config, s: State<P>, ref: nat) {
    Complete(cfg, s, ref) && !BeingTested(s, ref) ==> Spawns(s.merges, ref) == 1
  }

  /** Some leaves have received their packet with id 7, nothing is stored yet. */
  function Receiving<P>(cfg: Config, got: set<int>, packet: P): State<P> {
    State(map[], [], [], map l | l in cfg.leaves :: if l in got then Received(7, packet) else Listening, [])
  }

  /** All have received theirs, some have stored it, none has tested. */
  function Storing<P>(cfg: Config, stored: set<int>, packet: P): State<P> {
    State(map[7 := 0], [map l | l in stored :: packet], [7],
          map l | l in cfg.leaves :: if l in stored then AtTest(7, 0) else Received(7, packet), [])
  }

  /** All have stored theirs, and some have tested, each spawning a merge. */
  function Testing7<P>(cfg: Config, tested: set<int>, packet: P): State<P> {
    State(map[7 := 0], [map l | l in cfg.leaves :: packet], [7],
          map l | l in cfg.leaves :: if l in tested then Listening else AtTest(7, 0),
          seq(|tested|, _ => MergeThread(7, 0, Waiting)))
  }

  lemma OneMore<P>(cfg: Config, s: State<P>, a: Step<P>, rest: seq<Step<P>>)
    requires Allowed(cfg, s, a) && !Duplicate(s, a)
    requires CanRun(cfg, Apply(cfg, s, a), rest) && NoDuplicates(cfg, Apply(cfg, s, a), rest)
    ensures CanRun(cfg, s, [a] + rest) && NoDuplicates(cfg, s, [a] + rest)
    ensures Run(cfg, s, [a] + rest) == Run(cfg, Apply(cfg, s, a), rest)
  {
    assert ([a] + rest)[1..] == rest;
  }

  lemma {:induction false} ReceiveAll<P>(cfg: Config, got: set<int>, todo: set<int>, packet: P) returns (steps: seq<Step<P>>)
    requires got !! todo && got + todo == cfg.leaves
    ensures CanRun(cfg, Receiving(cfg, got, packet), steps) && NoDuplicates(cfg, Receiving(cfg, got, packet), steps)
    ensures Run(cfg, Receiving(cfg, got, packet), steps) == Receiving(cfg, cfg.leaves, packet)
    decreases todo
  {
    if todo == {} {
      steps := [];
      assert got == cfg.leaves;
    } else {
      var l := Pick(todo);
      var rest := ReceiveAll(cfg, got + {l}, todo - {l}, packet);
      assert Apply(cfg, Receiving(cfg, got, packet), Receive(l, 7, packet)) == Receiving(cfg, got + {l}, packet);
      OneMore(cfg, Receiving(cfg, got, packet), Receive(l, 7, packet), rest);
      steps := [Receive(l, 7, packet)] + rest;
    }
  }

  lemma InsertFirst<P>(cfg: Config, l: int, packet: P)
    requires !cfg.locked && l in cfg.leaves
    ensures var s := Receiving(cfg, cfg.leaves, packet);
      Allowed(cfg, s, Insert(l)) && !Duplicate(s, Insert(l)) && Apply(cfg, s, Insert(l)) == Storing(cfg, {l}, packet)
  {
    var r := Apply(cfg, Receiving(cfg, cfg.leaves, packet), Insert(l));
    var stored := Storing(cfg, {l}, packet);
    assert r.inner == [map[l := packet]];
    assert stored.inner[0] == map[l := packet];
    assert r.threads == stored.threads && r.merges == stored.merges;
  }

  lemma InsertNext<P>(cfg: Config, stored: set<int>, l: int, packet: P)
    requires !cfg.locked && l in cfg.leaves && l !in stored && stored <= cfg.leaves
    ensures var s := Storing(cfg, stored, packet);
      Allowed(cfg, s, Insert(l)) && !Duplicate(s, Insert(l)) && Apply(cfg, s, Insert(l)) == Storing(cfg, stored + {l}, packet)
  {
    var s := Storing(cfg, stored, packet);
    var r := Apply(cfg, s, Insert(l));
    assert s.inner[0][l := packet] == map k | k in stored + {l} :: packet;
  }

  lemma {:induction false} InsertAll<P>(cfg: Config, stored: set<int>, todo: set<int>, packet: P) returns (steps: seq<Step<P>>)
    requires !cfg.locked && stored !! todo && stored + todo == cfg.leaves
    ensures CanRun(cfg, Storing(cfg, stored, packet), steps) && NoDuplicates(cfg, Storing(cfg, stored, packet), steps)
    ensures Run(cfg, Storing(cfg, stored, packet), steps) == Storing(cfg, cfg.leaves, packet)
    decreases todo
  {
    if todo == {} {
      steps := [];
      assert stored == cfg.leaves;
    } else {
      var l := Pick(todo);
      var rest := InsertAll(cfg, stored + {l}, todo - {l}, packet);
      InsertNext(cfg, stored, l, packet);
      OneMore(cfg, Storing(cfg, stored, packet), Insert(l), rest);
      steps := [Insert(l)] + rest;
    }
  }

  lemma TestNext<P>(cfg: Config, tested: set<int>, l: int, packet: P)
    requires l in cfg.leaves && l !in tested && tested <= cfg.leaves
    ensures var s := Testing7(cfg, tested, packet);
      Allowed(cfg, s, Test(l)) && !Duplicate(s, Test(l)) && Apply(cfg, s, Test(l)) == Testing7(cfg, tested + {l}, packet)
  {
    var s := Testing7(cfg, tested, packet);
    assert s.inner[0].Keys == cfg.leaves && |s.inner[0].Keys| == |s.inner[0]|;
    assert |tested + {l}| == |tested| + 1;
    assert s.merges + [MergeThread(7, 0, Waiting)] == Testing7(cfg, tested + {l}, packet).merges;
  }

  lemma {:induction false} TestAll<P>(cfg: Config, tested: set<int>, todo: set<int>, packet: P) returns (steps: seq<Step<P>>)
    requires tested !! todo && tested + todo == cfg.leaves
    ensures CanRun(cfg, Testing7(cfg, tested, packet), steps) && NoDuplicates(cfg, Testing7(cfg, tested, packet), steps)
    ensures Run(cfg, Testing7(cfg, tested, packet), steps) == Testing7(cfg, cfg.leaves, packet)
    decreases todo
  {
    if todo == {} {
      steps := [];
      assert tested == cfg.leaves;
    } else {
      var l := Pick(todo);
      var rest := TestAll(cfg, tested + {l}, todo - {l}, packet);
      TestNext(cfg, tested, l, packet);
      OneMore(cfg, Testing7(cfg, tested, packet), Test(l), rest);
      steps := [Test(l)] + rest;
    }
  }

  lemma {:induction false} WaitingSpawns(n: nat)
    ensures Spawns(seq(n, _ => MergeThread(7, 0, Waiting)), 0) == n
  {
    var merges := seq(n, _ => MergeThread(7, 0, Waiting));
    if n == 0 {
    } else {
      assert merges[1..] == seq(n - 1, _ => MergeThread(7, 0, Waiting));
      WaitingSpawns(n - 1);
    }
  }

  /** With the test outside the critical section the bound of one merge for
      each leaf is reached: all store before any tests. */
  lemma EveryLeafSpawns<P>(cfg: Config, packet: P) returns (steps: seq<Step<P>>)
    requires !cfg.locked && cfg.leaves != {}
    ensures CanRun(cfg, Init(cfg), steps) && NoDuplicates(cfg, Init(cfg), steps)
    ensures var end := Run(cfg, Init(cfg), steps);
      Complete(cfg, end, 0) && !BeingTested(end, 0) && Spawns(end.merges, 0) == |cfg.leaves|
  {
    hide Apply, Allowed, Duplicate;
    var l := Pick(cfg.leaves);
    var receives := ReceiveAll(cfg, {}, cfg.leaves, packet);
    var inserts := InsertAll(cfg, {l}, cfg.leaves - {l}, packet);
    var tests := TestAll(cfg, {}, cfg.leaves, packet);
    InsertFirst(cfg, l, packet);
    OneMore(cfg, Receiving(cfg, cfg.leaves, packet), Insert(l), inserts);
    StartOfRun(cfg, packet);
    SplitRun(cfg, Storing(cfg, {l}, packet), inserts, tests);
    OneMore(cfg, Receiving(cfg, cfg.leaves, packet), Insert(l), inserts + tests);
    SplitRun(cfg, Init(cfg), receives, [Insert(l)] + (inserts + tests));
    WaitingSpawns(|cfg.leaves|);
    steps := receives + ([Insert(l)] + (inserts + tests));
  }

  lemma StartOfRun<P>(cfg: Config, packet: P)
    ensures Receiving(cfg, {}, packet) == Init(cfg)
    ensures Storing(cfg, cfg.leaves, packet) == Testing7(cfg, {}, packet)
  {
    assert seq(0, _ => MergeThread(7, 0, Waiting)) == [];
  }

  lemma NoLeavesNoRun<P>(cfg: Config, steps: seq<Step<P>>)
    requires cfg.leaves == {} && CanRun(cfg, Init(cfg), steps)
    ensures steps == []
  {
    assert Init<P>(cfg).threads == map[] && Init<P>(cfg).merges == [];
    if steps != [] {
      assert false;
    }
  }

  /** Exactly one merge for each complete set, in every run without duplicate
      deliveries: if and only if the test is made inside the critical section
      or the service has no two leaves. */
  lemma ExactlyOnceExactly<P(!new)>(cfg: Config, packet: P)
    ensures AlwaysOnce<P>(cfg) <==> cfg.locked || |cfg.leaves| <= 1
  {
    if cfg.locked || |cfg.leaves| <= 1 {
      forall steps: seq<Step<P>>, ref: nat | CanRun(cfg, Init(cfg), steps) && NoDuplicates(cfg, Init(cfg), steps)
        ensures OnceAt(cfg, Run(cfg, Init(cfg), steps), ref)
      {
        OnceEnough(cfg, steps, ref);
      }
    } else {
      var steps := EveryLeafSpawns(cfg, packet);
      assert !OnceAt(cfg, Run(cfg, Init(cfg), steps), 0);
    }
  }

  lemma OnceEnough<P>(cfg: Config, steps: seq<Step<P>>, ref: nat)
    requires cfg.locked || |cfg.leaves| <= 1
    requires CanRun(cfg, Init(cfg), steps) && NoDuplicates(cfg, Init(cfg), steps)
    ensures OnceAt(cfg, Run(cfg, Init(cfg), steps), ref)
  {
    hide Complete, BeingTested, Spawns, Allowed, Apply, Duplicate;
    if cfg.leaves == {} {
      NoLeavesNoRun(cfg, steps);
      NothingComplete<P>(cfg, ref);
    } else if cfg.locked {
      ExactlyOnceIfLocked(cfg, steps);
    } else {
      assert |cfg.leaves| >= 1;
      SpawnsAsWritten(cfg, steps, ref);
    }
  }

  lemma NothingComplete<P>(cfg: Config, ref: nat)
    ensures !Complete(cfg, Init<P>(cfg), ref)
  {
  }

  // ----- What a second merge does -----

  /** Exactly once fails as it is. Two leaves store their packets before
      either tests, so two merges are spawned for id 7. The first runs and
      erases the id; leaf 1 then sends a new packet with the same id; and the
      second merge finds that packet alone, an incomplete set. Had the new
      packet come later, the second merge would have found nothing at all. */
  const TWO_LEAVES := Config({1, 2}, false)

  const UNTIL_ERASED: seq<Step<int>> :=
    [Receive(1, 7, 10), Receive(2, 7, 20), Insert(1), Insert(2), Test(1), Test(2), Look(0), Finish(0)]

  /** Where that run ends: one merge is done, the other still waits. */
  const ERASED: State<int> :=
    State(map[], [map[1 := 10, 2 := 20]], [7], map[1 := Listening, 2 := Listening],
          [MergeThread(7, 0, Done(0)), MergeThread(7, 0, Waiting)])

  lemma SecondMergeGoesWrong()
    ensures CanRun(TWO_LEAVES, Init(TWO_LEAVES), UNTIL_ERASED) && NoDuplicates(TWO_LEAVES, Init(TWO_LEAVES), UNTIL_ERASED)
    ensures Run(TWO_LEAVES, Init(TWO_LEAVES), UNTIL_ERASED) == ERASED && Spawns(ERASED.merges, 0) == 2
    ensures CanRun(TWO_LEAVES, ERASED, [Look(1)])
    ensures Run(TWO_LEAVES, ERASED, [Look(1)]).merges == [MergeThread(7, 0, Done(0)), MergeThread(7, 0, Crashed)]
    ensures CanRun(TWO_LEAVES, ERASED, [Receive(1, 7, 11), Insert(1), Look(1)])
    ensures var late := Run(TWO_LEAVES, ERASED, [Receive(1, 7, 11), Insert(1), Look(1)]);
      late.merges == [MergeThread(7, 0, Done(0)), MergeThread(7, 0, Merging(1))] && late.inner == [map[1 := 10, 2 := 20], map[1 := 11]]
  {
    hide Apply, Allowed;
    RunUntilErased();
    SecondCrashes();
    SecondIsIncomplete();
  }

  lemma RunUntilErased()
    ensures CanRun(TWO_LEAVES, Init(TWO_LEAVES), UNTIL_ERASED) && NoDuplicates(TWO_LEAVES, Init(TWO_LEAVES), UNTIL_ERASED)
    ensures Run(TWO_LEAVES, Init(TWO_LEAVES), UNTIL_ERASED) == ERASED && Spawns(ERASED.merges, 0) == 2
  {
    hide Run, CanRun, NoDuplicates;
    BothSpawned();
    FirstMerges();
    SplitRun(TWO_LEAVES, Init(TWO_LEAVES), BOTH_SPAWNED, [Look(0), Finish(0)]);
    assert BOTH_SPAWNED + [Look(0), Finish(0)] == UNTIL_ERASED;
    assert ERASED.merges[1..] == [MergeThread(7, 0, Waiting)] && ERASED.merges[1..][1..] == [];
  }

  lemma FirstMerges()
    ensures var spawned := TwoSpawned(map[1 := Listening, 2 := Listening], [MergeThread(7, 0, Waiting), MergeThread(7, 0, Waiting)]);
      var steps: seq<Step<int>> := [Look(0), Finish(0)];
      CanRun(TWO_LEAVES, spawned, steps) && NoDuplicates(TWO_LEAVES, spawned, steps) && Run(TWO_LEAVES, spawned, steps) == ERASED
  {
    var spawned := TwoSpawned(map[1 := Listening, 2 := Listening], [MergeThread(7, 0, Waiting), MergeThread(7, 0, Waiting)]);
    var merging := Apply(TWO_LEAVES, spawned, Look(0));
    assert Apply(TWO_LEAVES, merging, Finish(0)) == ERASED;
    TwoMore(TWO_LEAVES, spawned, Look(0), Finish(0));
  }

  lemma SecondCrashes()
    ensures CanRun(TWO_LEAVES, ERASED, [Look(1)])
    ensures Run(TWO_LEAVES, ERASED, [Look(1)]).merges == [MergeThread(7, 0, Done(0)), MergeThread(7, 0, Crashed)]
  {
    var crashed := Apply(TWO_LEAVES, ERASED, Look(1));
    var steps: seq<Step<int>> := [Look(1)];
    assert steps[1..] == [];
  }

  lemma SecondIsIncomplete()
    ensures CanRun(TWO_LEAVES, ERASED, [Receive(1, 7, 11), Insert(1), Look(1)])
    ensures var late := Run(TWO_LEAVES, ERASED, [Receive(1, 7, 11), Insert(1), Look(1)]);
      late.merges == [MergeThread(7, 0, Done(0)), MergeThread(7, 0, Merging(1))] && late.inner == [map[1 := 10, 2 := 20], map[1 := 11]]
  {
    var received := Apply(TWO_LEAVES, ERASED, Receive(1, 7, 11));
    var stored := Apply(TWO_LEAVES, received, Insert(1));
    assert stored.inner == [map[1 := 10, 2 := 20], map[1 := 11]] && stored.packetMap == map[7 := 1];
    TwoMore(TWO_LEAVES, received, Insert(1), Look(1));
    assert [Receive(1, 7, 11), Insert(1), Look(1)][1..] == [Insert(1), Look(1)];
  }

  const BOTH_SPAWNED: seq<Step<int>> := [Receive(1, 7, 10), Receive(2, 7, 20), Insert(1), Insert(2), Test(1), Test(2)]

  /** The one inner map of the example, filled. */
  function TwoSpawned(threads: map<int, LeafThread<int>>, merges: seq<MergeThread>): State<int> {
    State(map[7 := 0], [map[1 := 10, 2 := 20]], [7], threads, merges)
  }

  lemma BothSpawned()
    ensures CanRun(TWO_LEAVES, Init(TWO_LEAVES), BOTH_SPAWNED) && NoDuplicates(TWO_LEAVES, Init(TWO_LEAVES), BOTH_SPAWNED)
    ensures Run(TWO_LEAVES, Init(TWO_LEAVES), BOTH_SPAWNED) ==
            TwoSpawned(map[1 := Listening, 2 := Listening], [MergeThread(7, 0, Waiting), MergeThread(7, 0, Waiting)])
  {
    BothReceived();
    BothStored();
    BothTested();
    var received := TwoReceived();
    SplitRun(TWO_LEAVES, received, [Insert(1), Insert(2)], [Test(1), Test(2)]);
    SplitRun(TWO_LEAVES, Init(TWO_LEAVES), [Receive(1, 7, 10), Receive(2, 7, 20)], [Insert(1), Insert(2)] + [Test(1), Test(2)]);
    assert BOTH_SPAWNED == [Receive(1, 7, 10), Receive(2, 7, 20)] + ([Insert(1), Insert(2)] + [Test(1), Test(2)]);
  }

  function TwoReceived(): State<int> {
    State(map[], [], [], map[1 := Received(7, 10), 2 := Received(7, 20)], [])
  }

  lemma BothReceived()
    ensures var steps: seq<Step<int>> := [Receive(1, 7, 10), Receive(2, 7, 20)];
      CanRun(TWO_LEAVES, Init(TWO_LEAVES), steps) && NoDuplicates(TWO_LEAVES, Init(TWO_LEAVES), steps)
      && Run(TWO_LEAVES, Init(TWO_LEAVES), steps) == TwoReceived()
  {
    var s0: State<int> := Init(TWO_LEAVES);
    assert Apply(TWO_LEAVES, Apply(TWO_LEAVES, s0, Receive(1, 7, 10)), Receive(2, 7, 20)) == TwoReceived();
    TwoMore(TWO_LEAVES, s0, Receive(1, 7, 10), Receive(2, 7, 20));
  }

  lemma BothStored()
    ensures var steps: seq<Step<int>> := [Insert(1), Insert(2)];
      CanRun(TWO_LEAVES, TwoReceived(), steps) && NoDuplicates(TWO_LEAVES, TwoReceived(), steps)
      && Run(TWO_LEAVES, TwoReceived(), steps) == TwoSpawned(map[1 := AtTest(7, 0), 2 := AtTest(7, 0)], [])
  {
    var s3 := Apply(TWO_LEAVES, TwoReceived(), Insert(1));
    assert s3 == State(map[7 := 0], [map[1 := 10]], [7], map[1 := AtTest(7, 0), 2 := Received(7, 20)], []);
    assert Apply(TWO_LEAVES, s3, Insert(2)) == TwoSpawned(map[1 := AtTest(7, 0), 2 := AtTest(7, 0)], []);
    TwoMore(TWO_LEAVES, TwoReceived(), Insert(1), Insert(2));
  }

  lemma BothTested()
    ensures var stored := TwoSpawned(map[1 := AtTest(7, 0), 2 := AtTest(7, 0)], []);
      var steps: seq<Step<int>> := [Test(1), Test(2)];
      CanRun(TWO_LEAVES, stored, steps) && NoDuplicates(TWO_LEAVES, stored, steps)
      && Run(TWO_LEAVES, stored, steps) ==
         TwoSpawned(map[1 := Listening, 2 := Listening], [MergeThread(7, 0, Waiting), MergeThread(7, 0, Waiting)])
  {
    var s4 := TwoSpawned(map[1 := AtTest(7, 0), 2 := AtTest(7, 0)], []);
    assert |map[1 := 10, 2 := 20]| == 2 by {
      assert map[1 := 10, 2 := 20].Keys == {1, 2};
    }
    var s5 := Apply(TWO_LEAVES, s4, Test(1));
    assert s5 == TwoSpawned(map[1 := Listening, 2 := AtTest(7, 0)], [MergeThread(7, 0, Waiting)]);
    assert Apply(TWO_LEAVES, s5, Test(2)) ==
           TwoSpawned(map[1 := Listening, 2 := Listening], [MergeThread(7, 0, Waiting), MergeThread(7, 0, Waiting)]);
    TwoMore(TWO_LEAVES, s4, Test(1), Test(2));
  }

  lemma TwoMore<P>(cfg: Config, s: State<P>, a: Step<P>, b: Step<P>)
    requires Allowed(cfg, s, a) && Allowed(cfg, Apply(cfg, s, a), b)
    ensures CanRun(cfg, s, [a, b]) && Run(cfg, s, [a, b]) == Apply(cfg, Apply(cfg, s, a), b)
    ensures NoDuplicates(cfg, s, [a, b]) <==> !Duplicate(s, a) && !Duplicate(Apply(cfg, s, a), b)
  {
    var s1 := Apply(cfg, s, a);
    var s2 := Apply(cfg, s1, b);
    assert [a, b][1..] == [b] && [b][1..] == [];
    assert CanRun(cfg, s2, []) && CanRun(cfg, s1, [b]);
    assert Run(cfg, s1, [b]) == Run(cfg, s2, []) == s2;
    assert NoDuplicates(cfg, s1, [b]) <==> !Duplicate(s1, b);
  }

  /** Runs can be put together. */
  lemma {:induction false} SplitRun<P>(cfg: Config, s: State<P>, steps: seq<Step<P>>, more: seq<Step<P>>)
    requires CanRun(cfg, s, steps) && CanRun(cfg, Run(cfg, s, steps), more)
    ensures CanRun(cfg, s, steps + more) && Run(cfg, s, steps + more) == Run(cfg, Run(cfg, s, steps), more)
    ensures NoDuplicates(cfg, s, steps + more) <==> NoDuplicates(cfg, s, steps) && NoDuplicates(cfg, Run(cfg, s, steps), more)
    decreases |steps|
  {
    if steps == [] {
      assert steps + more == more;
    } else {
      assert (steps + more)[1..] == steps[1..] + more;
      SplitRun(cfg, Apply(cfg, s, steps[0]), steps[1..], more);
    }
  }
}

/** Which leaf each field of a merged packet comes from: merging copies fields
    about, so the same merge run on leaf ids says where every value came from. */
module Provenance {
  import opened Packets
  import opened MergeSpec

  /** The leaves' packets by id; `other` stands in for ids that are no leaf's. */
  datatype Leaves<T> = Leaves(packets: map<int, Fields<T>>, other: Fields<T>) {
    function At(k: int): Fields<T> {
      if k in packets then packets[k] else other
    }
  }

  /** The packet whose fields are taken from the leaves that src names. */
  function Build<T>(src: Fields<int>, leaves: Leaves<T>): Fields<T> {
    Fields(leaves.At(src.sip).sip, leaves.At(src.dip).dip, leaves.At(src.sport).sport,
           leaves.At(src.dport).dport, leaves.At(src.payload).payload, leaves.At(src.id).id)
  }

  function BuildInfo<T>(i: Info<int>, leaves: Leaves<T>): Info<T> {
    Info(Build(i.fields, leaves), i.written)
  }

  function BuildMap<T>(m: LiveMap<int>, leaves: Leaves<T>): LiveMap<T> {
    map k | k in m :: BuildInfo(m[k], leaves)
  }

  function Everywhere(leaf: int): Fields<int> {
    Fields(leaf, leaf, leaf, leaf, leaf, leaf)
  }

  /** At the start every field of a leaf's packet comes from that leaf. */
  function Origin<T>(m: LiveMap<T>): LiveMap<int> {
    map k | k in m :: Info(Everywhere(k), m[k].written)
  }

  function Providers(p: Fields<int>): set<int> {
    {p.sip, p.dip, p.sport, p.dport, p.payload, p.id}
  }

  lemma OverlayNatural<T>(a: Info<int>, b: Info<int>, leaves: Leaves<T>)
    ensures Overlay(BuildInfo(a, leaves), BuildInfo(b, leaves)) == BuildInfo(Overlay(a, b), leaves)
  {
  }

  lemma MergedNatural<T>(ci: ConflictItem, writes: WriteTable, m: LiveMap<int>, leaves: Leaves<T>)
    requires Enabled(ci, m)
    ensures Enabled(ci, BuildMap(m, leaves))
    ensures Merged(ci, writes, BuildMap(m, leaves)) == BuildInfo(Merged(ci, writes, m), leaves)
  {
    hide Overlay, Build, ParentWrites;
    OverlayNatural(m[ci.major], m[ci.minor], leaves);
  }

  lemma BuildAt<T>(m: LiveMap<int>, leaves: Leaves<T>)
    ensures BuildMap(m, leaves).Keys == m.Keys
    ensures forall k :: k in m ==> BuildMap(m, leaves)[k] == BuildInfo(m[k], leaves)
  {
  }

  lemma StepNatural<T>(ci: ConflictItem, writes: WriteTable, m: LiveMap<int>, leaves: Leaves<T>)
    ensures Step(ci, writes, BuildMap(m, leaves)) == BuildMap(Step(ci, writes, m), leaves)
  {
    hide Merged, BuildInfo, BuildMap;
    BuildAt(m, leaves);
    BuildAt(Step(ci, writes, m), leaves);
    if Enabled(ci, m) {
      MergedNatural(ci, writes, m, leaves);
      var a, b := Step(ci, writes, BuildMap(m, leaves)), BuildMap(Step(ci, writes, m), leaves);
      assert a.Keys == b.Keys;
      assert forall k :: k in a ==> a[k] == b[k];
    }
  }

  lemma {:induction false} PassNatural<T>(items: seq<ConflictItem>, writes: WriteTable, m: LiveMap<int>, leaves: Leaves<T>)
    ensures Pass(items, writes, BuildMap(m, leaves)) == BuildMap(Pass(items, writes, m), leaves)
  {
    if items == [] {
    } else {
      StepNatural(items[0], writes, m, leaves);
      PassNatural(items[1..], writes, Step(items[0], writes, m), leaves);
    }
  }

  lemma SameSize<T>(m: LiveMap<int>, leaves: Leaves<T>)
    ensures BuildMap(m, leaves).Keys == m.Keys
    ensures |BuildMap(m, leaves)| == |m|
  {
    assert BuildMap(m, leaves).Keys == m.Keys;
    assert |BuildMap(m, leaves).Keys| == |BuildMap(m, leaves)| && |m.Keys| == |m|;
  }

  lemma {:induction false} LoopNatural<T>(items: seq<ConflictItem>, writes: WriteTable, m: LiveMap<int>, leaves: Leaves<T>)
    requires Irreflexive(items)
    ensures Loop(items, writes, BuildMap(m, leaves)) == BuildMap(Loop(items, writes, m), leaves)
    decreases |m|
  {
    var next := Pass(items, writes, m);
    PassNatural(items, writes, m, leaves);
    SameSize(m, leaves);
    SameSize(next, leaves);
    if |next| >= |m| {
    } else {
      LoopNatural(items, writes, next, leaves);
    }
  }

  lemma {:induction false} FoldNatural<T>(acc: Info<int>, keys: set<int>, m: LiveMap<int>, leaves: Leaves<T>)
    requires keys <= m.Keys
    ensures keys <= BuildMap(m, leaves).Keys
    ensures Fold(BuildInfo(acc, leaves), keys, BuildMap(m, leaves)) == BuildInfo(Fold(acc, keys, m), leaves)
    decreases keys
  {
    SameSize(m, leaves);
    if keys == {} {
    } else {
      var k := Min(keys);
      OverlayNatural(acc, m[k], leaves);
      FoldNatural(Overlay(acc, m[k]), keys - {k}, m, leaves);
    }
  }

  /** The merge of any leaf packets is the merge of the leaf ids, filled in
      with the leaves' values: which leaf supplies which field depends on
      the conflict list and the written sets alone. */
  lemma MergeNatural<T>(items: seq<ConflictItem>, writes: WriteTable, m: LiveMap<int>, leaves: Leaves<T>)
    requires Irreflexive(items) && m != map[]
    ensures BuildMap(m, leaves) != map[]
    ensures MergeAll(items, writes, BuildMap(m, leaves)) == BuildInfo(MergeAll(items, writes, m), leaves)
  {
    SameSize(m, leaves);
    LoopNatural(items, writes, m, leaves);
    var rest := Loop(items, writes, m);
    SameSize(rest, leaves);
    assert rest.Keys != {};
    var k := Min(rest.Keys);
    FoldNatural(rest[k], rest.Keys - {k}, rest, leaves);
  }
}

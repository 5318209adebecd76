/** What happens to the leaves' writes: nothing is lost unless a merge finds
    its parent's place taken, and with one parent for all that is exactly
    what happens as soon as there are four leaves. */
module Conservation {
  import opened Packets
  import opened MergeSpec

  function AllWritten<T>(m: LiveMap<T>): set<Field> {
    set k, f | k in m && f in m[k].written :: f
  }

  /** The fields written by the parents of the pairs collapsed in one pass. */
  function PassParentWrites<T>(items: seq<ConflictItem>, writes: WriteTable, m: LiveMap<T>): set<Field> {
    if items == [] then {}
    else (if Enabled(items[0], m) then ParentWrites(items[0].parent, writes) else {})
         + PassParentWrites(items[1..], writes, Step(items[0], writes, m))
  }

  function FiredParentWrites<T>(items: seq<ConflictItem>, writes: WriteTable, m: LiveMap<T>): set<Field>
    requires Irreflexive(items)
    decreases |m|
  {
    var next := Pass(items, writes, m);
    PassParentWrites(items, writes, m) + if |next| < |m| then FiredParentWrites(items, writes, next) else {}
  }

  /** Field f has been written in one packet only, and its value there is v. */
  ghost predicate SoleWriter<T(!new)>(m: LiveMap<T>, f: Field, v: T) {
    exists k :: k in m && f in m[k].written && m[k].fields.Get(f) == v
             && forall j :: j in m && j != k ==> f !in m[j].written
  }

  lemma StepWritten<T>(ci: ConflictItem, writes: WriteTable, m: LiveMap<T>)
    requires Enabled(ci, m) && !Refused(ci, m)
    ensures AllWritten(Collapse(ci, writes, m)) == AllWritten(m) + ParentWrites(ci.parent, writes)
  {
    var r := Collapse(ci, writes, m);
    forall f: Field {
      StepWrittenField(ci, writes, m, f);
    }
  }

  lemma StepWrittenField<T>(ci: ConflictItem, writes: WriteTable, m: LiveMap<T>, f: Field)
    requires Enabled(ci, m) && !Refused(ci, m)
    ensures f in AllWritten(Collapse(ci, writes, m)) <==> f in AllWritten(m) || f in ParentWrites(ci.parent, writes)
  {
    var r := Collapse(ci, writes, m);
    var merged := Merged(ci, writes, m);
    assert r[ci.parent] == merged;
    assert merged.written == m[ci.major].written + m[ci.minor].written + ParentWrites(ci.parent, writes);
    if f in AllWritten(r) {
      var k :| k in r && f in r[k].written;
      if k != ci.parent {
        assert k in m && f in m[k].written;
      }
    }
    if f in AllWritten(m) {
      var k :| k in m && f in m[k].written;
      if k != ci.major && k != ci.minor {
        assert k in r && r[k] == m[k];
      }
    }
  }

  /** What a merge that finds its place free leaves: the merge there, and the
      other packets as they were. */
  lemma CollapseAt<T>(ci: ConflictItem, writes: WriteTable, m: LiveMap<T>)
    requires Enabled(ci, m) && !Refused(ci, m)
    ensures var r := Collapse(ci, writes, m);
      && ci.parent in r && r[ci.parent] == Merged(ci, writes, m)
      && forall j :: j != ci.parent ==> (j in r <==> j in m && j != ci.major && j != ci.minor) && (j in r ==> r[j] == m[j])
    ensures ci.parent in m ==> ci.parent == ci.major || ci.parent == ci.minor
  {
    hide Merged;
  }

  lemma StepSoleWriter<T(!new)>(ci: ConflictItem, writes: WriteTable, m: LiveMap<T>, f: Field, v: T)
    requires f in MERGEABLE && SoleWriter(m, f, v)
    requires !Refused(ci, m)
    requires Enabled(ci, m) ==> f !in ParentWrites(ci.parent, writes)
    ensures SoleWriter(Step(ci, writes, m), f, v)
  {
    hide Merged, Collapse, Enabled, Refused, ParentWrites;
    if Enabled(ci, m) {
      var k :| k in m && f in m[k].written && m[k].fields.Get(f) == v
            && forall j :: j in m && j != k ==> f !in m[j].written;
      var r, merged := Collapse(ci, writes, m), Merged(ci, writes, m);
      MergedSoleWriter(ci, writes, m, f, k);
      CollapseAt(ci, writes, m);
      var k' := if k == ci.major || k == ci.minor then ci.parent else k;
      assert k' in r && f in r[k'].written && r[k'].fields.Get(f) == v;
    }
  }

  /** The merge has written f exactly if the sole writer is one of the two, and then holds its value. */
  lemma MergedSoleWriter<T(!new)>(ci: ConflictItem, writes: WriteTable, m: LiveMap<T>, f: Field, k: int)
    requires f in MERGEABLE && k in m && f in m[k].written && forall j :: j in m && j != k ==> f !in m[j].written
    requires Enabled(ci, m) && f !in ParentWrites(ci.parent, writes)
    ensures f in Merged(ci, writes, m).written <==> k == ci.major || k == ci.minor
    ensures k == ci.major || k == ci.minor ==> Merged(ci, writes, m).fields.Get(f) == m[k].fields.Get(f)
  {
    assert Merged(ci, writes, m).fields.Get(f) == Choose(f, m[ci.major], m[ci.minor]);
  }

  lemma {:induction false} PassWritten<T>(items: seq<ConflictItem>, writes: WriteTable, m: LiveMap<T>)
    requires PassLosses(items, writes, m) == 0
    ensures AllWritten(Pass(items, writes, m)) == AllWritten(m) + PassParentWrites(items, writes, m)
  {
    hide *;
    if items == [] {
      NoPass(writes, m);
    } else {
      PassUnrolled(items, writes, m);
      StepWrites(items[0], writes, m);
      var next := Step(items[0], writes, m);
      PassWritten(items[1..], writes, next);
      UnionAssociates(AllWritten(m), StepParentWrites(items[0], writes, m), PassParentWrites(items[1..], writes, next));
    }
  }

  lemma NoPass<T>(writes: WriteTable, m: LiveMap<T>)
    ensures AllWritten(Pass([], writes, m)) == AllWritten(m) + PassParentWrites([], writes, m)
  {
  }

  function StepParentWrites<T>(ci: ConflictItem, writes: WriteTable, m: LiveMap<T>): set<Field> {
    if Enabled(ci, m) then ParentWrites(ci.parent, writes) else {}
  }

  lemma PassUnrolled<T>(items: seq<ConflictItem>, writes: WriteTable, m: LiveMap<T>)
    requires items != [] && PassLosses(items, writes, m) == 0
    ensures Pass(items, writes, m) == Pass(items[1..], writes, Step(items[0], writes, m))
    ensures PassParentWrites(items, writes, m) ==
            StepParentWrites(items[0], writes, m) + PassParentWrites(items[1..], writes, Step(items[0], writes, m))
    ensures PassLosses(items[1..], writes, Step(items[0], writes, m)) == 0 && !Refused(items[0], m)
  {
    hide ParentWrites, Step, Enabled, Refused;
  }

  lemma StepWrites<T>(ci: ConflictItem, writes: WriteTable, m: LiveMap<T>)
    requires !Refused(ci, m)
    ensures AllWritten(Step(ci, writes, m)) == AllWritten(m) + StepParentWrites(ci, writes, m)
  {
    hide AllWritten, ParentWrites, Collapse, Enabled, Refused;
    if Enabled(ci, m) {
      StepWritten(ci, writes, m);
    }
  }

  lemma UnionAssociates<T>(a: set<T>, b: set<T>, c: set<T>)
    ensures (a + b) + c == a + (b + c)
  {
  }

  lemma {:induction false} PassSoleWriter<T(!new)>(items: seq<ConflictItem>, writes: WriteTable, m: LiveMap<T>, f: Field, v: T)
    requires PassLosses(items, writes, m) == 0
    requires f in MERGEABLE && SoleWriter(m, f, v) && f !in PassParentWrites(items, writes, m)
    ensures SoleWriter(Pass(items, writes, m), f, v)
  {
    if items == [] {
    } else {
      StepSoleWriter(items[0], writes, m, f, v);
      PassSoleWriter(items[1..], writes, Step(items[0], writes, m), f, v);
    }
  }

  lemma {:induction false} LoopWritten<T>(items: seq<ConflictItem>, writes: WriteTable, m: LiveMap<T>)
    requires Irreflexive(items) && Losses(items, writes, m) == 0
    ensures AllWritten(Loop(items, writes, m)) == AllWritten(m) + FiredParentWrites(items, writes, m)
    decreases |m|
  {
    PassWritten(items, writes, m);
    var next := Pass(items, writes, m);
    if |next| >= |m| {
    } else {
      LoopWritten(items, writes, next);
    }
  }

  lemma {:induction false} LoopSoleWriter<T(!new)>(items: seq<ConflictItem>, writes: WriteTable, m: LiveMap<T>, f: Field, v: T)
    requires Irreflexive(items) && Losses(items, writes, m) == 0
    requires f in MERGEABLE && SoleWriter(m, f, v) && f !in FiredParentWrites(items, writes, m)
    ensures SoleWriter(Loop(items, writes, m), f, v)
    decreases |m|
  {
    PassSoleWriter(items, writes, m, f, v);
    var next := Pass(items, writes, m);
    if |next| >= |m| {
    } else {
      LoopSoleWriter(items, writes, next, f, v);
    }
  }

  lemma {:induction false} FoldWrites<T>(acc: Info<T>, keys: set<int>, m: LiveMap<T>)
    requires keys <= m.Keys
    ensures Fold(acc, keys, m).written == acc.written + set k, g | k in keys && g in m[k].written :: g
    decreases keys
  {
    if keys == {} {
    } else {
      var k := Min(keys);
      FoldWrites(Overlay(acc, m[k]), keys - {k}, m);
      var here, there := (set j, g | j in keys && g in m[j].written :: g), (set j, g | j in keys - {k} && g in m[j].written :: g);
      forall g | g in here
        ensures g in m[k].written || g in there
      {
        var j :| j in keys && g in m[j].written;
        assert j == k || j in keys - {k};
      }
    }
  }

  lemma {:induction false} FoldConserves<T>(acc: Info<T>, keys: set<int>, m: LiveMap<T>, f: Field)
    requires keys <= m.Keys
    ensures f in acc.written ==> Fold(acc, keys, m).fields.Get(f) == acc.fields.Get(f)
    ensures (forall k :: k in keys ==> f !in m[k].written) ==> Fold(acc, keys, m).fields.Get(f) == acc.fields.Get(f)
    ensures f in MERGEABLE && f !in acc.written ==>
              forall k :: k in keys && f in m[k].written && (forall j :: j in keys && j != k ==> f !in m[j].written)
                      ==> Fold(acc, keys, m).fields.Get(f) == m[k].fields.Get(f)
    decreases keys
  {
    if keys == {} {
    } else {
      var k := Min(keys);
      var next := Overlay(acc, m[k]);
      FoldConserves(next, keys - {k}, m, f);
      assert next.fields.Get(f) == Choose(f, acc, m[k]);
    }
  }

  lemma {:induction false} FoldAllWritten<T>(m: LiveMap<T>)
    requires m != map[]
    ensures FoldAll(m).written == AllWritten(m)
  {
    assert m.Keys != {};
    var k := Min(m.Keys);
    FoldWrites(m[k], m.Keys - {k}, m);
    assert forall j :: j in m <==> j == k || j in m.Keys - {k};
  }

  lemma FoldAllSoleWriter<T(!new)>(m: LiveMap<T>, f: Field, v: T)
    requires m != map[] && f in MERGEABLE && SoleWriter(m, f, v)
    ensures FoldAll(m).fields.Get(f) == v
  {
    assert m.Keys != {};
    var k := Min(m.Keys);
    FoldConserves(m[k], m.Keys - {k}, m, f);
    var sole :| sole in m && f in m[sole].written && m[sole].fields.Get(f) == v
             && forall j :: j in m && j != sole ==> f !in m[j].written;
    if sole != k {
      assert sole in m.Keys - {k};
    }
  }

  // ----- The order of the fold -----

  /** Copies of one packet whose writers touched different fields. */
  ghost predicate Copies<T(!new)>(m: LiveMap<T>) {
    forall a, b :: a in m && b in m ==>
      m[a].written <= MERGEABLE && AgreeOutside(m[a].fields, m[b].fields, m[a].written + m[b].written)
      && (a != b ==> m[a].written !! m[b].written)
  }

  /** The packets merged one after the other in the given order. */
  function FoldInOrder<T>(order: seq<int>, m: LiveMap<T>): Info<T>
    requires order != [] && forall i :: 0 <= i < |order| ==> order[i] in m
  {
    var n := |order| - 1;
    if n == 0 then m[order[0]] else Overlay(FoldInOrder(order[..n], m), m[order[n]])
  }

  lemma Unsnoc(order: seq<int>, n: nat)
    requires |order| == n + 1
    ensures forall k :: k in order <==> k in order[..n] || k == order[n]
  {
    assert order == order[..n] + [order[n]];
  }

  lemma {:induction false} FoldInOrderWritten<T>(order: seq<int>, m: LiveMap<T>, f: Field)
    requires order != [] && forall i :: 0 <= i < |order| ==> order[i] in m
    ensures FoldInOrder(order, m).fields.id == m[order[0]].fields.id
    ensures f in FoldInOrder(order, m).written <==> exists k :: k in order && f in m[k].written
  {
    var n := |order| - 1;
    Unsnoc(order, n);
    if n == 0 {
    } else {
      FoldInOrderWritten(order[..n], m, f);
    }
  }

  lemma {:induction false} FoldInOrderField<T(!new)>(order: seq<int>, m: LiveMap<T>, f: Field)
    requires order != [] && (forall i :: 0 <= i < |order| ==> order[i] in m) && Copies(m)
    ensures forall k :: k in order && f in m[k].written ==> FoldInOrder(order, m).fields.Get(f) == m[k].fields.Get(f)
    ensures (forall k :: k in order ==> f !in m[k].written) ==> FoldInOrder(order, m).fields.Get(f) == m[order[0]].fields.Get(f)
  {
    hide Copies, Overlay, Choose;
    var n := |order| - 1;
    Unsnoc(order, n);
    if n == 0 {
    } else {
      var before, last := FoldInOrder(order[..n], m), m[order[n]];
      FoldInOrderField(order[..n], m, f);
      FoldInOrderWritten(order[..n], m, f);
      assert FoldInOrder(order, m) == Overlay(before, last);
      hide FoldInOrder;
      OneMoreCopy(order[..n], order[n], m, f, before);
      assert order[..n][0] == order[0];
    }
  }

  /** The accumulated packet takes the last one's field if the last one has written it. */
  lemma OneMoreCopy<T(!new)>(order: seq<int>, k: int, m: LiveMap<T>, f: Field, before: Info<T>)
    requires Copies(m) && k in m && forall i :: 0 <= i < |order| ==> order[i] in m
    requires f in before.written <==> exists j :: j in order && f in m[j].written
    requires forall j :: j in order && f in m[j].written ==> before.fields.Get(f) == m[j].fields.Get(f)
    ensures f in m[k].written ==> Overlay(before, m[k]).fields.Get(f) == m[k].fields.Get(f)
    ensures f in m[k].written ==> forall j :: j in order && f in m[j].written ==> j == k
    ensures f !in m[k].written ==> Overlay(before, m[k]).fields.Get(f) == before.fields.Get(f)
  {
    hide Copies, Overlay;
    assert Overlay(before, m[k]).fields.Get(f) == Choose(f, before, m[k]);
    if f in m[k].written {
      SoleWriterOf(m, f, k);
    }
  }

  lemma SoleWriterOf<T(!new)>(m: LiveMap<T>, f: Field, k: int)
    requires Copies(m) && k in m && f in m[k].written
    ensures f in MERGEABLE && forall j :: j in m && f in m[j].written ==> j == k
  {
  }

  lemma FoldAllField<T(!new)>(m: LiveMap<T>, f: Field, k: int)
    requires Copies(m) && k in m
    ensures FoldAll(m).fields.id == m[k].fields.id
    ensures f in FoldAll(m).written <==> exists j :: j in m && f in m[j].written
    ensures f in m[k].written ==> FoldAll(m).fields.Get(f) == m[k].fields.Get(f)
    ensures (forall j :: j in m ==> f !in m[j].written) ==> FoldAll(m).fields.Get(f) == m[k].fields.Get(f)
  {
    hide Fold;
    assert m.Keys != {};
    var least := Min(m.Keys);
    FoldConserves(m[least], m.Keys - {least}, m, f);
    FoldWrites(m[least], m.Keys - {least}, m);
    FoldKeepsId(m[least], m.Keys - {least}, m);
    assert forall j :: j in m <==> j == least || j in m.Keys - {least};
    assert AgreeOutside(m[least].fields, m[k].fields, m[least].written + m[k].written);
  }

  lemma {:induction false} FoldKeepsId<T>(acc: Info<T>, keys: set<int>, m: LiveMap<T>)
    requires keys <= m.Keys
    ensures Fold(acc, keys, m).fields.id == acc.fields.id
    decreases keys
  {
    if keys == {} {
    } else {
      var k := Min(keys);
      FoldKeepsId(Overlay(acc, m[k]), keys - {k}, m);
    }
  }

  /** The fold's order does not matter for such copies: merging them in any
      order, with repetitions or without, gives the packet and the written
      set that merging in ascending order gives. */
  lemma FoldOrderIsFree<T(!new)>(order: seq<int>, m: LiveMap<T>)
    requires Copies(m) && order != [] && forall k :: k in order <==> k in m
    ensures m != map[] && (forall i :: 0 <= i < |order| ==> order[i] in m) && FoldInOrder(order, m) == FoldAll(m)
  {
    hide FoldAll, FoldInOrder;
    forall i | 0 <= i < |order|
      ensures order[i] in m
    {
      var k := order[i];
      assert k in order;
    }
    var first := order[0];
    assert first in m;
    var a, b := FoldInOrder(order, m), FoldAll(m);
    FoldInOrderWritten(order, m, SIP);
    FoldAllField(m, SIP, order[0]);
    forall f: Field
      ensures a.fields.Get(f) == b.fields.Get(f) && (f in a.written <==> f in b.written)
    {
      FoldInOrderField(order, m, f);
      FoldInOrderWritten(order, m, f);
      if k :| k in m && f in m[k].written {
        FoldAllField(m, f, k);
      } else {
        FoldAllField(m, f, order[0]);
      }
      FoldAllField(m, f, order[0]);
    }
    AgreeEverywhere(a.fields, b.fields);
    assert a.written == b.written;
  }

  /** If no merge is lost, the final packet counts as written in every field
      some leaf or some collapsed parent writes, and in no other. */
  lemma WrittenConserved<T>(items: seq<ConflictItem>, writes: WriteTable, m: LiveMap<T>)
    requires Irreflexive(items) && m != map[]
    requires Losses(items, writes, m) == 0
    ensures MergeAll(items, writes, m).written == AllWritten(m) + FiredParentWrites(items, writes, m)
  {
    LoopWritten(items, writes, m);
    FoldAllWritten(Loop(items, writes, m));
  }

  /** If no merge is lost, a field that a single leaf writes, and no
      collapsed parent, ends with that leaf's value. */
  lemma SoleWriteConserved<T(!new)>(items: seq<ConflictItem>, writes: WriteTable, m: LiveMap<T>, f: Field, leaf: int)
    requires Irreflexive(items) && Losses(items, writes, m) == 0
    requires f in MERGEABLE && leaf in m && f in m[leaf].written
    requires forall j :: j in m && j != leaf ==> f !in m[j].written
    requires f !in FiredParentWrites(items, writes, m)
    ensures MergeAll(items, writes, m).fields.Get(f) == m[leaf].fields.Get(f)
  {
    var v := m[leaf].fields.Get(f);
    assert SoleWriter(m, f, v);
    LoopSoleWriter(items, writes, m, f, v);
    FoldAllSoleWriter(Loop(items, writes, m), f, v);
  }

  // ----- Properties that merging keeps -----

  /** Merging two packets that have the property gives one that has it,
      whatever then counts as written. */
  ghost predicate Closed<T(!new)>(has: Info<T> -> bool) {
    forall a, b, written {:trigger has(Info(Overlay(a, b).fields, written))} ::
      has(a) && has(b) ==> has(Info(Overlay(a, b).fields, written))
  }

  ghost predicate AllHave<T(!new)>(m: LiveMap<T>, has: Info<T> -> bool) {
    forall k :: k in m ==> has(m[k])
  }

  lemma StepKeeps<T(!new)>(ci: ConflictItem, writes: WriteTable, m: LiveMap<T>, has: Info<T> -> bool)
    requires Closed(has) && AllHave(m, has)
    ensures AllHave(Step(ci, writes, m), has)
  {
    if Enabled(ci, m) {
      var merged := Overlay(m[ci.major], m[ci.minor]);
      assert has(Info(Overlay(m[ci.major], m[ci.minor]).fields, merged.written + ParentWrites(ci.parent, writes)));
      assert has(Merged(ci, writes, m));
    }
  }

  lemma {:induction false} PassKeeps<T(!new)>(items: seq<ConflictItem>, writes: WriteTable, m: LiveMap<T>, has: Info<T> -> bool)
    requires Closed(has) && AllHave(m, has)
    ensures AllHave(Pass(items, writes, m), has)
  {
    if items == [] {
    } else {
      StepKeeps(items[0], writes, m, has);
      PassKeeps(items[1..], writes, Step(items[0], writes, m), has);
    }
  }

  lemma {:induction false} LoopKeeps<T(!new)>(items: seq<ConflictItem>, writes: WriteTable, m: LiveMap<T>, has: Info<T> -> bool)
    requires Irreflexive(items) && Closed(has) && AllHave(m, has)
    ensures AllHave(Loop(items, writes, m), has)
    decreases |m|
  {
    PassKeeps(items, writes, m, has);
    var next := Pass(items, writes, m);
    if |next| >= |m| {
    } else {
      LoopKeeps(items, writes, next, has);
    }
  }

  lemma {:induction false} FoldKeeps<T(!new)>(acc: Info<T>, keys: set<int>, m: LiveMap<T>, has: Info<T> -> bool)
    requires keys <= m.Keys && Closed(has) && AllHave(m, has) && has(acc)
    ensures has(Fold(acc, keys, m))
    decreases keys
  {
    if keys == {} {
    } else {
      var k := Min(keys);
      var next := Overlay(acc, m[k]);
      assert next == Info(Overlay(acc, m[k]).fields, next.written);
      FoldKeeps(next, keys - {k}, m, has);
    }
  }

  lemma FoldAllKeeps<T(!new)>(m: LiveMap<T>, has: Info<T> -> bool)
    requires m != map[] && Closed(has) && AllHave(m, has)
    ensures has(FoldAll(m))
  {
    assert m.Keys != {};
    var k := Min(m.Keys);
    FoldKeeps(m[k], m.Keys - {k}, m, has);
  }

  lemma MergeKeeps<T(!new)>(items: seq<ConflictItem>, writes: WriteTable, m: LiveMap<T>, has: Info<T> -> bool)
    requires Irreflexive(items) && m != map[] && Closed(has) && AllHave(m, has)
    ensures has(MergeAll(items, writes, m))
  {
    LoopKeeps(items, writes, m, has);
    FoldAllKeeps(Loop(items, writes, m), has);
  }

  function IsPacket<T(==)>(fields: Fields<T>): Info<T> -> bool {
    (a: Info<T>) => a.fields == fields
  }

  function HasId<T(==)>(id: T): Info<T> -> bool {
    (a: Info<T>) => a.fields.id == id
  }

  function HasValue<T(==)>(f: Field, v: T): Info<T> -> bool {
    (a: Info<T>) => a.fields.Get(f) == v
  }

  lemma PacketCloses<T(!new)>(fields: Fields<T>)
    ensures Closed(IsPacket(fields))
  {
    var has := IsPacket(fields);
    forall a, b, written | has(a) && has(b)
      ensures has(Info(Overlay(a, b).fields, written))
    {
      OverlaySame(a, b);
    }
  }

  lemma ValueCloses<T(!new)>(f: Field, v: T)
    ensures Closed(HasValue(f, v))
  {
    var has := HasValue(f, v);
    forall a, b, written | has(a) && has(b)
      ensures has(Info(Overlay(a, b).fields, written))
    {
      assert Overlay(a, b).fields.Get(f) == Choose(f, a, b);
    }
  }

  lemma IdCloses<T(!new)>(id: T)
    ensures Closed(HasId(id))
  {
  }

  // ----- One parent for all -----

  /** Every item is between two of the leaves and names the same parent. */
  ghost predicate FlatItems(items: seq<ConflictItem>, leaves: set<int>, parent: int) {
    forall i :: 0 <= i < |items| ==> items[i].parent == parent && items[i].major != items[i].minor
                                     && items[i].major in leaves && items[i].minor in leaves
  }

  /** Every two leaves have an item, in one direction at least. */
  ghost predicate AllPairs(items: seq<ConflictItem>, leaves: set<int>) {
    forall a, b {:trigger Paired(items, a, b)} :: a in leaves && b in leaves && a != b ==> Paired(items, a, b)
  }

  ghost predicate Paired(items: seq<ConflictItem>, a: int, b: int) {
    exists i :: 0 <= i < |items| && Joins(items[i], a, b)
  }

  lemma {:induction false} FlatPass<T>(items: seq<ConflictItem>, writes: WriteTable, m: LiveMap<T>, leaves: set<int>, parent: int)
    requires FlatItems(items, leaves, parent) && parent !in leaves
    requires m.Keys <= leaves + {parent}
    ensures Pass(items, writes, m).Keys <= leaves + {parent}
    ensures parent in m && parent in Pass(items, writes, m) ==> PassLosses(items, writes, m) == PassFirings(items, writes, m)
    ensures parent in m ==> parent in Pass(items, writes, m)
    ensures parent !in m ==> (parent in Pass(items, writes, m) <==> PassFirings(items, writes, m) > 0)
    ensures parent !in m ==> PassLosses(items, writes, m) ==
                             if PassFirings(items, writes, m) == 0 then 0 else PassFirings(items, writes, m) - 1
  {
    if items == [] {
    } else {
      assert items[0].parent == parent && items[0].major in leaves && items[0].minor in leaves;
      FlatPass(items[1..], writes, Step(items[0], writes, m), leaves, parent);
    }
  }

  lemma {:induction false} FlatLoop<T>(items: seq<ConflictItem>, writes: WriteTable, m: LiveMap<T>, leaves: set<int>, parent: int)
    requires Irreflexive(items) && FlatItems(items, leaves, parent) && parent !in leaves
    requires m.Keys <= leaves + {parent}
    ensures Loop(items, writes, m).Keys <= leaves + {parent}
    ensures parent in m ==> Losses(items, writes, m) == Firings(items, writes, m)
    ensures parent in m ==> parent in Loop(items, writes, m)
    ensures parent !in m ==> (parent in Loop(items, writes, m) <==> Firings(items, writes, m) > 0)
    ensures parent !in m ==> Losses(items, writes, m) == if Firings(items, writes, m) == 0 then 0 else Firings(items, writes, m) - 1
    decreases |m|
  {
    FlatPass(items, writes, m, leaves, parent);
    var next := Pass(items, writes, m);
    if |next| >= |m| {
    } else {
      FlatLoop(items, writes, next, leaves, parent);
    }
  }

  lemma AtMostTwo<T>(keys: set<T>, parent: T)
    requires forall a, b :: a in keys && b in keys && a != parent && b != parent ==> a == b
    ensures |keys| <= 2
    ensures parent !in keys ==> |keys| <= 1
  {
    var others := keys - {parent};
    if others != {} {
      var a := Pick(others);
      Singleton(others, a);
    }
    assert keys == others || keys == others + {parent};
  }

  lemma Singleton<T>(s: set<T>, a: T)
    requires a in s && forall x :: x in s ==> x == a
    ensures s == {a}
  {
  }

  /** With every pair of n leaves listed under one parent, in any order and
      either direction, the loop loses n / 2 - 1 merges. So no write can be
      lost with up to three leaves, and with four or more some merge is. */
  lemma FlatServiceLosses<T>(items: seq<ConflictItem>, writes: WriteTable, m: LiveMap<T>, parent: int)
    requires Irreflexive(items) && m != map[]
    requires parent !in m && FlatItems(items, m.Keys, parent) && AllPairs(items, m.Keys)
    ensures Losses(items, writes, m) == if |m| < 2 then 0 else |m| / 2 - 1
    ensures Losses(items, writes, m) == 0 <==> |m| <= 3
  {
    var r := Loop(items, writes, m);
    FlatLoop(items, writes, m, m.Keys, parent);
    PacketsAccountedFor(items, writes, m);
    FlatEnd(items, writes, m, parent);
  }

  lemma NotPaired<T>(items: seq<ConflictItem>, m: LiveMap<T>, a: int, b: int)
    requires a in m && b in m
    requires forall i :: 0 <= i < |items| ==> !Enabled(items[i], m)
    ensures !Paired(items, a, b)
  {
  }

  lemma FlatEnd<T>(items: seq<ConflictItem>, writes: WriteTable, m: LiveMap<T>, parent: int)
    requires Irreflexive(items) && m != map[]
    requires AllPairs(items, m.Keys)
    requires Loop(items, writes, m).Keys <= m.Keys + {parent}
    ensures 1 <= |Loop(items, writes, m)| <= 2
    ensures parent !in Loop(items, writes, m) ==> |Loop(items, writes, m)| == 1
  {
    var r := Loop(items, writes, m);
    LoopIsFixpoint(items, writes, m);
    forall a, b | a in r.Keys && b in r.Keys && a != parent && b != parent
      ensures a == b
    {
      NotPaired(items, r, a, b);
    }
    AtMostTwo(r.Keys, parent);
    assert |r.Keys| == |r| && r.Keys != {};
  }

  /** The loss is real: with four leaves a, b, c, d under one parent and a
      conflict list that begins with the pairs a, b and c, d, the second pair
      vanishes without a trace, whatever it wrote. */
  lemma FourLeavesLoseTwo<T>(a: int, b: int, c: int, d: int, parent: int, others: seq<ConflictItem>,
                             writes: WriteTable, m: LiveMap<T>)
    requires m.Keys == {a, b, c, d} && a != b && a != c && a != d && b != c && b != d && c != d
    requires parent !in m && FlatItems(others, m.Keys, parent)
    requires Irreflexive([ConflictItem(a, b, parent), ConflictItem(c, d, parent)] + others)
    ensures MergeAll([ConflictItem(a, b, parent), ConflictItem(c, d, parent)] + others, writes, m)
            == Merged(ConflictItem(a, b, parent), writes, m)
  {
    hide *;
    var first, second := ConflictItem(a, b, parent), ConflictItem(c, d, parent);
    var items := [first, second] + others;
    assert Enabled(first, m) by {
      BothThere(first, m);
    }
    TwoSteps(first, second, parent, writes, m);
    NotInMerge(others, m, parent, Merged(first, writes, m));
    PassTwo(first, second, others, writes, m, map[parent := Merged(first, writes, m)]);
    FourKeys(a, b, c, d, m);
    OnePassThenEnd(items, writes, m, parent, Merged(first, writes, m));
  }

  lemma BothThere<T>(ci: ConflictItem, m: LiveMap<T>)
    requires {ci.major, ci.minor} <= m.Keys
    ensures Enabled(ci, m)
  {
  }

  lemma NotInMerge<T>(others: seq<ConflictItem>, m: LiveMap<T>, parent: int, v: Info<T>)
    requires parent !in m && FlatItems(others, m.Keys, parent)
    ensures forall i :: 0 <= i < |others| ==> !Enabled(others[i], map[parent := v])
  {
    forall i | 0 <= i < |others|
      ensures !Enabled(others[i], map[parent := v])
    {
      assert others[i].major in m.Keys;
    }
  }

  lemma OnePassThenEnd<T>(items: seq<ConflictItem>, writes: WriteTable, m: LiveMap<T>, parent: int, v: Info<T>)
    requires Irreflexive(items) && |m| > 1 && Pass(items, writes, m) == map[parent := v]
    ensures MergeAll(items, writes, m) == v
  {
    hide Pass, FoldAll;
    var end: LiveMap<T> := map[parent := v];
    assert |end| == 1;
    SettlesAt(items, writes, end, parent);
    assert Loop(items, writes, m) == Loop(items, writes, end);
  }

  lemma FourKeys<T>(a: int, b: int, c: int, d: int, m: LiveMap<T>)
    requires m.Keys == {a, b, c, d} && a != b && a != c && a != d && b != c && b != d && c != d
    ensures |m| == 4
  {
    assert |m.Keys| == |m|;
  }

  lemma PassTwo<T>(first: ConflictItem, second: ConflictItem, others: seq<ConflictItem>, writes: WriteTable,
                   m: LiveMap<T>, end: LiveMap<T>)
    requires Step(second, writes, Step(first, writes, m)) == end
    requires forall i :: 0 <= i < |others| ==> !Enabled(others[i], end)
    ensures Pass([first, second] + others, writes, m) == end
  {
    var items := [first, second] + others;
    assert items[1..] == [second] + others && ([second] + others)[1..] == others;
    NothingEnabled(others, writes, end);
  }

  lemma SettlesAt<T>(items: seq<ConflictItem>, writes: WriteTable, m: LiveMap<T>, only: int)
    requires Irreflexive(items) && m.Keys == {only}
    ensures MergeAll(items, writes, m) == m[only]
  {
    forall i | 0 <= i < |items|
      ensures !Enabled(items[i], m)
    {
      assert items[i].major != items[i].minor;
    }
    NothingEnabled(items, writes, m);
    assert Loop(items, writes, m) == m;
    assert Min(m.Keys) == only && m.Keys - {only} == {};
  }

  lemma TwoSteps<T>(first: ConflictItem, second: ConflictItem, parent: int, writes: WriteTable, m: LiveMap<T>)
    requires m.Keys == {first.major, first.minor, second.major, second.minor} && parent !in m
    requires first.parent == second.parent == parent
    requires first.major != second.major && first.major != second.minor
    requires first.minor != second.major && first.minor != second.minor
    ensures Step(second, writes, Step(first, writes, m)) == map[parent := Merged(first, writes, m)]
  {
    var m1 := Step(first, writes, m);
    assert m1.Keys == {second.major, second.minor, parent};
    assert m1 - {second.major, second.minor} == map[parent := Merged(first, writes, m)];
  }

  lemma {:induction false} NothingEnabled<T>(items: seq<ConflictItem>, writes: WriteTable, m: LiveMap<T>)
    requires forall i :: 0 <= i < |items| ==> !Enabled(items[i], m)
    ensures Pass(items, writes, m) == m
  {
    if items == [] {
    } else {
      NothingEnabled(items[1..], writes, m);
    }
  }
}

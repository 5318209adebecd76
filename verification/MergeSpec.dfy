/** What `merge_packet` computes, as functions on a map from node ids to packets: passes over the
    conflict list, each collapsing the pairs that are both present, then a fold of what remains. */
module MergeSpec {
  import opened Packets

  /** Node `major` has precedence over node `minor`; their merge stands at node `parent`. */
  datatype ConflictItem = ConflictItem(major: int, minor: int, parent: int)

  /** For each node of the service graph, the fields its function may write. */
  type WriteTable = map<int, set<Field>>

  type LiveMap<T> = map<int, Info<T>>

  datatype Outcome = Dropped | Delivered(packet: Wire)

  /** A pair of one node with itself would never be used up. */
  predicate Irreflexive(items: seq<ConflictItem>) {
    forall i :: 0 <= i < |items| ==> items[i].major != items[i].minor
  }

  /** The item is between the two nodes, in either direction. */
  predicate Joins(ci: ConflictItem, a: int, b: int) {
    (ci.major == a && ci.minor == b) || (ci.major == b && ci.minor == a)
  }

  predicate Enabled<T>(ci: ConflictItem, m: LiveMap<T>) {
    ci.major in m && ci.minor in m
  }

  function ParentWrites(parent: int, writes: WriteTable): set<Field> {
    if parent in writes then writes[parent] else {}
  }

  /** Major and minor merged, the parent's own writes added. */
  function Merged<T>(ci: ConflictItem, writes: WriteTable, m: LiveMap<T>): Info<T>
    requires Enabled(ci, m)
  {
    var merged := Overlay(m[ci.major], m[ci.minor]);
    Info(merged.fields, merged.written + ParentWrites(ci.parent, writes))
  }

  /** Major and minor leave the map and the merge takes the parent's place,
      unless that place is already taken: insertion never overwrites. */
  function Collapse<T>(ci: ConflictItem, writes: WriteTable, m: LiveMap<T>): (r: LiveMap<T>)
    requires Enabled(ci, m)
    ensures r != map[]
    ensures ci.major != ci.minor ==> |r| < |m|
  {
    var rest := m - {ci.major, ci.minor};
    CollapseSize(ci, Merged(ci, writes, m), m);
    if ci.parent in rest then rest else rest[ci.parent := Merged(ci, writes, m)]
  }

  lemma CollapseSize<T>(ci: ConflictItem, v: Info<T>, m: LiveMap<T>)
    requires Enabled(ci, m)
    ensures ci.major != ci.minor ==> |m - {ci.major, ci.minor}| == |m| - 2
    ensures ci.parent !in m - {ci.major, ci.minor} ==>
              |(m - {ci.major, ci.minor})[ci.parent := v]| == |m - {ci.major, ci.minor}| + 1
  {
    var rest := m - {ci.major, ci.minor};
    assert rest.Keys == m.Keys - {ci.major, ci.minor};
    if ci.major != ci.minor {
      assert m.Keys == rest.Keys + {ci.major, ci.minor};
      assert |m.Keys| == |m| && |rest.Keys| == |rest|;
      assert |{ci.major, ci.minor}| == 2;
    }
    if ci.parent !in rest {
      assert rest[ci.parent := v].Keys == rest.Keys + {ci.parent};
      assert |rest[ci.parent := v].Keys| == |rest[ci.parent := v]|;
    }
  }

  function Step<T>(ci: ConflictItem, writes: WriteTable, m: LiveMap<T>): LiveMap<T> {
    if Enabled(ci, m) then Collapse(ci, writes, m) else m
  }

  /** One pass over the conflict list. */
  function Pass<T>(items: seq<ConflictItem>, writes: WriteTable, m: LiveMap<T>): (r: LiveMap<T>)
    ensures m != map[] ==> r != map[]
    ensures Irreflexive(items) ==> |r| <= |m|
  {
    if items == [] then m else Pass(items[1..], writes, Step(items[0], writes, m))
  }

  /** Passes until one of them collapses nothing. */
  function Loop<T>(items: seq<ConflictItem>, writes: WriteTable, m: LiveMap<T>): (r: LiveMap<T>)
    requires Irreflexive(items)
    ensures m != map[] ==> r != map[]
    decreases |m|
  {
    var next := Pass(items, writes, m);
    if |next| < |m| then Loop(items, writes, next) else next
  }

  ghost function Pick<T>(s: set<T>): (x: T)
    requires s != {}
    ensures x in s
  {
    var x :| x in s;
    x
  }

  function Min(s: set<int>): (k: int)
    requires s != {}
    ensures k in s && forall x :: x in s ==> k <= x
  {
    MinExists(s);
    var k :| k in s && forall x :: x in s ==> k <= x;
    k
  }

  lemma {:induction false} MinExists(s: set<int>)
    requires s != {}
    ensures exists k :: k in s && forall x :: x in s ==> k <= x
  {
    var k := Pick(s);
    if s == {k} {
    } else {
      MinExists(s - {k});
      var k' :| k' in s - {k} && forall x :: x in s - {k} ==> k' <= x;
      LeastOfBoth(s, k, k');
    }
  }

  lemma LeastOfBoth(s: set<int>, k: int, k': int)
    requires k in s && k' in s && forall x :: x in s - {k} ==> k' <= x
    ensures exists least :: least in s && forall x :: x in s ==> least <= x
  {
    var least := if k <= k' then k else k';
    forall x | x in s
      ensures least <= x
    {
      assert x == k || x in s - {k};
    }
    assert least in s;
  }

  /** The remaining packets are merged in ascending order of node id. */
  function Fold<T>(acc: Info<T>, keys: set<int>, m: LiveMap<T>): Info<T>
    requires keys <= m.Keys
    decreases keys
  {
    if keys == {} then acc
    else
      var k := Min(keys);
      Fold(Overlay(acc, m[k]), keys - {k}, m)
  }

  function FoldAll<T>(m: LiveMap<T>): Info<T>
    requires m != map[]
  {
    assert m.Keys != {};
    var k := Min(m.Keys);
    Fold(m[k], m.Keys - {k}, m)
  }

  /** The whole merge when no packet is null. */
  function MergeAll<T>(items: seq<ConflictItem>, writes: WriteTable, m: LiveMap<T>): Info<T>
    requires Irreflexive(items) && m != map[]
  {
    FoldAll(Loop(items, writes, m))
  }

  // ----- The merge with its early exits on null packets -----

  function PassChecked(items: seq<ConflictItem>, writes: WriteTable, m: LiveMap<Bytes>): (r: Option<LiveMap<Bytes>>)
    ensures r.Some? ==> r.value == Pass(items, writes, m)
  {
    if items == [] then Some(m)
    else if Enabled(items[0], m) && (IsNull(m[items[0].major].fields) || IsNull(m[items[0].minor].fields)) then None
    else PassChecked(items[1..], writes, Step(items[0], writes, m))
  }

  function LoopChecked(items: seq<ConflictItem>, writes: WriteTable, m: LiveMap<Bytes>): (r: Option<LiveMap<Bytes>>)
    requires Irreflexive(items)
    ensures r.Some? ==> r.value == Loop(items, writes, m)
    decreases |m|
  {
    match PassChecked(items, writes, m)
    case None => None
    case Some(next) => if |next| < |m| then LoopChecked(items, writes, next) else Some(next)
  }

  /** The fold keeps going once its packet is null, and stays null. */
  function FoldChecked(acc: Outcome, written: set<Field>, keys: set<int>, m: LiveMap<Bytes>): Outcome
    requires keys <= m.Keys
    decreases keys
  {
    if keys == {} then acc
    else
      var k := Min(keys);
      if acc.Dropped? || IsNull(m[k].fields) then FoldChecked(Dropped, {}, keys - {k}, m)
      else
        var merged := Overlay(Info(acc.packet, written), m[k]);
        FoldChecked(Delivered(merged.fields), merged.written, keys - {k}, m)
  }

  function OutcomeOf(p: Wire): Outcome {
    if IsNull(p) then Dropped else Delivered(p)
  }

  function MergeOutcome(items: seq<ConflictItem>, writes: WriteTable, m: LiveMap<Bytes>): Outcome
    requires Irreflexive(items) && m != map[]
  {
    match LoopChecked(items, writes, m)
    case None => Dropped
    case Some(rest) =>
      assert rest.Keys != {};
      var k := Min(rest.Keys);
      FoldChecked(OutcomeOf(rest[k].fields), rest[k].written, rest.Keys - {k}, rest)
  }

  // ----- Termination and fixpoint -----

  /** A pass that leaves the size of the map alone has collapsed nothing, and
      no item of the list has both its members present. */
  lemma {:induction false} IdlePass<T>(items: seq<ConflictItem>, writes: WriteTable, m: LiveMap<T>)
    requires Irreflexive(items)
    requires |Pass(items, writes, m)| == |m|
    ensures Pass(items, writes, m) == m
    ensures forall i :: 0 <= i < |items| ==> !Enabled(items[i], m)
  {
    if items == [] {
    } else {
      var next := Step(items[0], writes, m);
      assert Irreflexive(items[1..]);
      assert |Pass(items[1..], writes, next)| <= |next|;
      assert next == m && !Enabled(items[0], m);
      IdlePass(items[1..], writes, m);
      assert forall i :: 1 <= i < |items| ==> items[i] == items[1..][i - 1];
    }
  }

  /** When the loop ends, no conflict is left, and another pass changes nothing. */
  lemma {:induction false} LoopIsFixpoint<T>(items: seq<ConflictItem>, writes: WriteTable, m: LiveMap<T>)
    requires Irreflexive(items)
    ensures |Loop(items, writes, m)| <= |m|
    ensures forall i :: 0 <= i < |items| ==> !Enabled(items[i], Loop(items, writes, m))
    ensures Pass(items, writes, Loop(items, writes, m)) == Loop(items, writes, m)
    decreases |m|
  {
    var next := Pass(items, writes, m);
    if |next| < |m| {
      LoopIsFixpoint(items, writes, next);
    } else {
      IdlePass(items, writes, m);
    }
  }

  /** The pairs collapsed in one pass. */
  function PassFirings<T>(items: seq<ConflictItem>, writes: WriteTable, m: LiveMap<T>): nat {
    if items == [] then 0
    else (if Enabled(items[0], m) then 1 else 0) + PassFirings(items[1..], writes, Step(items[0], writes, m))
  }

  function Firings<T>(items: seq<ConflictItem>, writes: WriteTable, m: LiveMap<T>): nat
    requires Irreflexive(items)
    decreases |m|
  {
    var next := Pass(items, writes, m);
    PassFirings(items, writes, m) + if |next| < |m| then Firings(items, writes, next) else 0
  }

  /** A merge is lost when its parent's place is taken. */
  predicate Refused<T>(ci: ConflictItem, m: LiveMap<T>) {
    Enabled(ci, m) && ci.parent in m && ci.parent != ci.major && ci.parent != ci.minor
  }

  function PassLosses<T>(items: seq<ConflictItem>, writes: WriteTable, m: LiveMap<T>): nat {
    if items == [] then 0
    else (if Refused(items[0], m) then 1 else 0) + PassLosses(items[1..], writes, Step(items[0], writes, m))
  }

  function Losses<T>(items: seq<ConflictItem>, writes: WriteTable, m: LiveMap<T>): nat
    requires Irreflexive(items)
    decreases |m|
  {
    var next := Pass(items, writes, m);
    PassLosses(items, writes, m) + if |next| < |m| then Losses(items, writes, next) else 0
  }

  lemma StepSize<T>(ci: ConflictItem, writes: WriteTable, m: LiveMap<T>)
    requires ci.major != ci.minor
    ensures |m| == |Step(ci, writes, m)| + (if Enabled(ci, m) then 1 else 0) + (if Refused(ci, m) then 1 else 0)
  {
    if Enabled(ci, m) {
      CollapseSize(ci, Merged(ci, writes, m), m);
    }
  }

  lemma {:induction false} PassSize<T>(items: seq<ConflictItem>, writes: WriteTable, m: LiveMap<T>)
    requires Irreflexive(items)
    ensures |m| == |Pass(items, writes, m)| + PassFirings(items, writes, m) + PassLosses(items, writes, m)
  {
    if items == [] {
    } else {
      StepSize(items[0], writes, m);
      PassSize(items[1..], writes, Step(items[0], writes, m));
    }
  }

  /** Every packet is accounted for: n packets end as the packets that are
      left, one less for each pair collapsed and one less for each merge
      lost. So n leaves cause at most n - 1 collapses. */
  lemma {:induction false} PacketsAccountedFor<T>(items: seq<ConflictItem>, writes: WriteTable, m: LiveMap<T>)
    requires Irreflexive(items) && m != map[]
    ensures |m| == |Loop(items, writes, m)| + Firings(items, writes, m) + Losses(items, writes, m)
    ensures Firings(items, writes, m) + Losses(items, writes, m) <= |m| - 1
    decreases |m|
  {
    var next := Pass(items, writes, m);
    PassSize(items, writes, m);
    if |next| >= |m| {
    } else {
      PacketsAccountedFor(items, writes, next);
    }
  }

  function Passes<T>(items: seq<ConflictItem>, writes: WriteTable, m: LiveMap<T>, n: nat): LiveMap<T>
    decreases n
  {
    if n == 0 then m else Pass(items, writes, Passes(items, writes, m, n - 1))
  }

  /** An item of a node with itself, standing at its own parent, fires in
      every pass and leaves the nodes as they were: the source's loop over
      such a list does not end. */
  lemma {:induction false} SelfConflictNeverSettles<T>(k: int, writes: WriteTable, m: LiveMap<T>, passes: nat)
    requires k in m
    ensures Passes([ConflictItem(k, k, k)], writes, m, passes).Keys == m.Keys
    ensures PassFirings([ConflictItem(k, k, k)], writes, Passes([ConflictItem(k, k, k)], writes, m, passes)) == 1
    decreases passes
  {
    hide *;
    var items := [ConflictItem(k, k, k)];
    PassesStep(items, writes, m, passes);
    if passes == 0 {
    } else {
      SelfConflictNeverSettles(k, writes, m, passes - 1);
      SelfConflictPass(k, k, writes, Passes(items, writes, m, passes - 1));
    }
    SelfConflictPass(k, k, writes, Passes(items, writes, m, passes));
  }

  lemma PassesStep<T>(items: seq<ConflictItem>, writes: WriteTable, m: LiveMap<T>, n: nat)
    ensures Passes(items, writes, m, n) == if n == 0 then m else Pass(items, writes, Passes(items, writes, m, n - 1))
  {
  }

  lemma SelfConflictPass<T>(k: int, p: int, writes: WriteTable, m: LiveMap<T>)
    ensures Pass([ConflictItem(k, k, p)], writes, m).Keys == if k in m then m.Keys - {k} + {p} else m.Keys
    ensures PassFirings([ConflictItem(k, k, p)], writes, m) == if k in m then 1 else 0
  {
    hide Merged, Pass, PassFirings;
    var ci := ConflictItem(k, k, p);
    OneItem(ci, writes, m);
    assert Step(ci, writes, m).Keys == if k in m then m.Keys - {k} + {p} else m.Keys;
  }

  lemma OneItem<T>(ci: ConflictItem, writes: WriteTable, m: LiveMap<T>)
    ensures Pass([ci], writes, m) == Step(ci, writes, m)
    ensures PassFirings([ci], writes, m) == if Enabled(ci, m) then 1 else 0
  {
    hide Step, Enabled;
    var none: seq<ConflictItem> := [];
    assert [ci][1..] == none;
    assert Pass(none, writes, Step(ci, writes, m)) == Step(ci, writes, m);
    assert PassFirings(none, writes, Step(ci, writes, m)) == 0;
  }

  /** After some number of passes, another one collapses nothing. */
  ghost predicate Settles<T>(items: seq<ConflictItem>, writes: WriteTable, m: LiveMap<T>) {
    exists n: nat {:trigger Passes(items, writes, m, n)} :: PassFirings(items, writes, Passes(items, writes, m, n)) == 0
  }

  /** So for a list of one such item the loop ends exactly if the item's
      parent is another node, or its own node has no packet. */
  lemma SelfItemSettlesExactly<T>(k: int, p: int, writes: WriteTable, m: LiveMap<T>)
    ensures Settles([ConflictItem(k, k, p)], writes, m) <==> p != k || k !in m
  {
    hide Pass, PassFirings;
    var items := [ConflictItem(k, k, p)];
    assert Passes(items, writes, m, 0) == m;
    SelfConflictPass(k, p, writes, m);
    if p != k {
      var next := Passes(items, writes, m, 1);
      assert next == Pass(items, writes, m);
      SelfConflictPass(k, p, writes, next);
    } else if k in m {
      forall n: nat
        ensures PassFirings(items, writes, Passes(items, writes, m, n)) != 0
      {
        SelfConflictNeverSettles(k, writes, m, n);
      }
    }
  }

  // ----- The drop theorem -----

  ghost predicate AnyNull(m: LiveMap<Bytes>) {
    exists k :: k in m && IsNull(m[k].fields)
  }

  lemma StepKeepsNull(ci: ConflictItem, writes: WriteTable, m: LiveMap<Bytes>)
    requires Enabled(ci, m) ==> !IsNull(m[ci.major].fields) && !IsNull(m[ci.minor].fields)
    ensures AnyNull(Step(ci, writes, m)) == AnyNull(m)
  {
    var r := Step(ci, writes, m);
    if Enabled(ci, m) {
      OverlayKeepsNull(m[ci.major], m[ci.minor]);
      if AnyNull(m) {
        var k :| k in m && IsNull(m[k].fields);
        assert k in r && r[k] == m[k];
      }
      if AnyNull(r) {
        var k :| k in r && IsNull(r[k].fields);
        assert k in m && r[k] == m[k];
      }
    }
  }

  lemma {:induction false} PassCheckedNull(items: seq<ConflictItem>, writes: WriteTable, m: LiveMap<Bytes>)
    ensures PassChecked(items, writes, m).None? ==> AnyNull(m)
    ensures PassChecked(items, writes, m).Some? ==> AnyNull(Pass(items, writes, m)) == AnyNull(m)
  {
    if items == [] {
    } else {
      if Enabled(items[0], m) && (IsNull(m[items[0].major].fields) || IsNull(m[items[0].minor].fields)) {
      } else {
        StepKeepsNull(items[0], writes, m);
        PassCheckedNull(items[1..], writes, Step(items[0], writes, m));
      }
    }
  }

  lemma {:induction false} LoopCheckedNull(items: seq<ConflictItem>, writes: WriteTable, m: LiveMap<Bytes>)
    requires Irreflexive(items)
    ensures LoopChecked(items, writes, m).None? ==> AnyNull(m)
    ensures LoopChecked(items, writes, m).Some? ==> AnyNull(Loop(items, writes, m)) == AnyNull(m)
    decreases |m|
  {
    PassCheckedNull(items, writes, m);
    match PassChecked(items, writes, m)
    case None =>
    case Some(next) => if |next| < |m| { LoopCheckedNull(items, writes, next); }
  }

  lemma {:induction false} FoldCheckedNull(acc: Outcome, written: set<Field>, keys: set<int>, m: LiveMap<Bytes>)
    requires keys <= m.Keys
    requires acc.Delivered? ==> !IsNull(acc.packet)
    ensures FoldChecked(acc, written, keys, m) ==
      if acc.Dropped? || exists k :: k in keys && IsNull(m[k].fields) then Dropped
      else Delivered(Fold(Info(acc.packet, written), keys, m).fields)
    decreases keys
  {
    if keys == {} {
    } else {
      var k := Min(keys);
      if acc.Dropped? || IsNull(m[k].fields) {
        FoldCheckedNull(Dropped, {}, keys - {k}, m);
      } else {
        var merged := Overlay(Info(acc.packet, written), m[k]);
        OverlayKeepsNull(Info(acc.packet, written), m[k]);
        FoldCheckedNull(Delivered(merged.fields), merged.written, keys - {k}, m);
        assert forall j :: j in keys && IsNull(m[j].fields) ==> j in keys - {k};
      }
    }
  }

  /** The merged packet is dropped exactly when some leaf's packet was null,
      even if merges are lost on the way; otherwise it is the merge that
      knows nothing of null packets. */
  lemma DropTheorem(items: seq<ConflictItem>, writes: WriteTable, m: LiveMap<Bytes>)
    requires Irreflexive(items) && m != map[]
    ensures MergeOutcome(items, writes, m) ==
      if exists k :: k in m && IsNull(m[k].fields) then Dropped
      else Delivered(MergeAll(items, writes, m).fields)
  {
    LoopCheckedNull(items, writes, m);
    match LoopChecked(items, writes, m)
    case None =>
    case Some(rest) =>
      assert rest.Keys != {};
      var k := Min(rest.Keys);
      FoldCheckedNull(OutcomeOf(rest[k].fields), rest[k].written, rest.Keys - {k}, rest);
      assert forall j :: j in rest <==> j == k || j in rest.Keys - {k};
  }

  // ----- Which fields may count as written -----

  ghost predicate WritesWithin<T(!new)>(m: LiveMap<T>, fields: set<Field>) {
    forall k :: k in m ==> m[k].written <= fields
  }

  lemma {:induction false} PassWritesWithin<T(!new)>(items: seq<ConflictItem>, writes: WriteTable, m: LiveMap<T>, fields: set<Field>)
    requires WritesWithin(m, fields)
    requires forall k :: k in writes ==> writes[k] <= fields
    ensures WritesWithin(Pass(items, writes, m), fields)
  {
    if items == [] {
    } else {
      PassWritesWithin(items[1..], writes, Step(items[0], writes, m), fields);
    }
  }

  lemma {:induction false} LoopWritesWithin<T(!new)>(items: seq<ConflictItem>, writes: WriteTable, m: LiveMap<T>, fields: set<Field>)
    requires Irreflexive(items) && WritesWithin(m, fields)
    requires forall k :: k in writes ==> writes[k] <= fields
    ensures WritesWithin(Loop(items, writes, m), fields)
    decreases |m|
  {
    PassWritesWithin(items, writes, m, fields);
    var next := Pass(items, writes, m);
    if |next| >= |m| {
    } else {
      LoopWritesWithin(items, writes, next, fields);
    }
  }
}

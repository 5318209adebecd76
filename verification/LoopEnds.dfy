/** For which conflict lists the collapsing loop ends, items of a node with
    itself included. */
module LoopEnds {
  import opened Packets
  import opened MergeSpec

  // ----- A lone packet's way -----

  /** The item takes a lone packet at node k to its parent. */
  predicate Takes(ci: ConflictItem, k: int) {
    ci.major == k && ci.minor == k
  }

  predicate Moves(items: seq<ConflictItem>, k: int) {
    exists i :: 0 <= i < |items| && Takes(items[i], k)
  }

  /** Where one pass leaves a lone packet that was at node k. */
  function Hop(items: seq<ConflictItem>, k: int): int {
    if items == [] then k else Hop(items[1..], if Takes(items[0], k) then items[0].parent else k)
  }

  function Walk(items: seq<ConflictItem>, k: int, n: nat): int {
    if n == 0 then k else Hop(items, Walk(items, k, n - 1))
  }

  /** A lone packet at node k comes to rest within n passes. */
  predicate StopsWithin(items: seq<ConflictItem>, k: int, n: nat)
    decreases n
  {
    !Moves(items, k) || (n > 0 && StopsWithin(items, Hop(items, k), n - 1))
  }

  /** From every major a lone packet comes to rest within as many passes as the list is long. */
  predicate EveryWalkStops(items: seq<ConflictItem>) {
    forall i :: 0 <= i < |items| ==> StopsWithin(items, items[i].major, |items|)
  }

  lemma MovesCons(items: seq<ConflictItem>, k: int)
    ensures Moves(items, k) <==> items != [] && (Takes(items[0], k) || Moves(items[1..], k))
  {
    if i :| 0 < i < |items| && Takes(items[i], k) {
      assert items[1..][i - 1] == items[i];
    }
    if items != [] {
      if i :| 0 <= i < |items[1..]| && Takes(items[1..][i], k) {
        assert items[i + 1] == items[1..][i];
      }
    }
  }

  lemma {:induction false} RestStays(items: seq<ConflictItem>, k: int)
    requires !Moves(items, k)
    ensures Hop(items, k) == k
  {
    hide Moves, Takes;
    MovesCons(items, k);
    if items == [] {
    } else {
      RestStays(items[1..], k);
    }
  }

  lemma AllStop(items: seq<ConflictItem>, k: int)
    requires EveryWalkStops(items)
    ensures StopsWithin(items, k, |items|)
  {
    if i :| 0 <= i < |items| && Takes(items[i], k) {
      assert items[i].major == k;
    }
  }

  // ----- What a pass does to the number of packets -----

  lemma StepShrinks<T>(ci: ConflictItem, writes: WriteTable, m: LiveMap<T>)
    ensures |Step(ci, writes, m)| <= |m|
    ensures |Step(ci, writes, m)| == |m| && Enabled(ci, m) ==>
              Takes(ci, ci.major) && Step(ci, writes, m).Keys == m.Keys - {ci.major} + {ci.parent}
  {
    hide Merged;
    if Enabled(ci, m) {
      CollapseSize(ci, Merged(ci, writes, m), m);
      var rest := m - {ci.major, ci.minor};
      assert rest.Keys == m.Keys - {ci.major, ci.minor};
      if ci.major == ci.minor {
        assert |rest.Keys| == |m.Keys| - 1 && |rest.Keys| == |rest| && |m.Keys| == |m|;
      }
    }
  }

  lemma {:induction false} PassShrinks<T>(items: seq<ConflictItem>, writes: WriteTable, m: LiveMap<T>)
    ensures |Pass(items, writes, m)| <= |m|
  {
    hide Step;
    if items == [] {
    } else {
      StepShrinks(items[0], writes, m);
      PassShrinks(items[1..], writes, Step(items[0], writes, m));
    }
  }

  ghost predicate Hopped(items: seq<ConflictItem>, from: set<int>, k: int) {
    exists j :: j in from && k == Hop(items, j)
  }

  /** A pass that keeps the number of packets moves each as if it were alone,
      and collapses nothing if all of them are at rest. */
  lemma {:induction false} ConstantPass<T>(items: seq<ConflictItem>, writes: WriteTable, m: LiveMap<T>)
    requires |Pass(items, writes, m)| >= |m|
    ensures forall k :: k in Pass(items, writes, m) ==> Hopped(items, m.Keys, k)
    ensures (forall k :: k in m ==> !Moves(items, k)) ==> PassFirings(items, writes, m) == 0
  {
    hide Step, Moves, Hopped;
    if items == [] {
      NoHop(m.Keys);
    } else {
      var next := Step(items[0], writes, m);
      StepShrinks(items[0], writes, m);
      PassShrinks(items[1..], writes, next);
      ConstantPass(items[1..], writes, next);
      forall k | k in Pass(items, writes, m)
        ensures Hopped(items, m.Keys, k)
      {
        HoppedOneMore(items, writes, m, k);
      }
      forall k
        ensures Moves(items, k) <==> Takes(items[0], k) || Moves(items[1..], k)
      {
        MovesCons(items, k);
      }
      NotEnabledStays(items[0], writes, m);
    }
  }

  lemma NotEnabledStays<T>(ci: ConflictItem, writes: WriteTable, m: LiveMap<T>)
    ensures !Enabled(ci, m) ==> Step(ci, writes, m) == m
  {
  }

  lemma NoHop(keys: set<int>)
    ensures forall k :: k in keys ==> Hopped([], keys, k)
  {
    forall k | k in keys
      ensures Hopped([], keys, k)
    {
      assert Hop([], k) == k;
    }
  }

  lemma HoppedOneMore<T>(items: seq<ConflictItem>, writes: WriteTable, m: LiveMap<T>, k: int)
    requires items != [] && |Step(items[0], writes, m)| == |m|
    requires Hopped(items[1..], Step(items[0], writes, m).Keys, k)
    ensures Hopped(items, m.Keys, k)
  {
    hide Step;
    var next := Step(items[0], writes, m);
    StepShrinks(items[0], writes, m);
    NotEnabledStays(items[0], writes, m);
    var j :| j in next.Keys && k == Hop(items[1..], j);
    if Enabled(items[0], m) && j == items[0].parent {
      assert k == Hop(items, items[0].major);
    } else {
      assert j in m.Keys && !Takes(items[0], j);
      assert k == Hop(items, j);
    }
  }

  // ----- If every lone packet comes to rest, the loop ends -----

  lemma SettlesLater<T>(items: seq<ConflictItem>, writes: WriteTable, m: LiveMap<T>)
    requires Settles(items, writes, Pass(items, writes, m))
    ensures Settles(items, writes, m)
  {
    hide Pass, PassFirings;
    var n: nat :| PassFirings(items, writes, Passes(items, writes, Pass(items, writes, m), n)) == 0;
    PassesShift(items, writes, m, n);
    assert PassFirings(items, writes, Passes(items, writes, m, n + 1)) == 0;
  }

  lemma {:induction false} PassesShift<T>(items: seq<ConflictItem>, writes: WriteTable, m: LiveMap<T>, n: nat)
    ensures Passes(items, writes, Pass(items, writes, m), n) == Passes(items, writes, m, n + 1)
    decreases n
  {
    hide Pass;
    if n == 0 {
      assert Passes(items, writes, m, 0) == m;
    } else {
      PassesShift(items, writes, m, n - 1);
    }
  }

  lemma {:induction false} SettlesFrom<T>(items: seq<ConflictItem>, writes: WriteTable, m: LiveMap<T>, n: nat)
    requires EveryWalkStops(items) && forall k :: k in m ==> StopsWithin(items, k, n)
    ensures Settles(items, writes, m)
    decreases |m|, n
  {
    hide Pass, PassFirings, EveryWalkStops, Moves, Settles, Hopped;
    var next := Pass(items, writes, m);
    if |next| < |m| {
      forall k | k in next
        ensures StopsWithin(items, k, |items|)
      {
        AllStop(items, k);
      }
      SettlesFrom(items, writes, next, |items|);
      SettlesLater(items, writes, m);
    } else {
      PassShrinks(items, writes, m);
      ConstantPass(items, writes, m);
      if k :| k in m && Moves(items, k) {
        forall k' | k' in next
          ensures StopsWithin(items, k', n - 1)
        {
          StopsSooner(items, m.Keys, k', n);
        }
        SettlesFrom(items, writes, next, n - 1);
        SettlesLater(items, writes, m);
      } else {
        SettlesNow(items, writes, m);
      }
    }
  }

  lemma SettlesNow<T>(items: seq<ConflictItem>, writes: WriteTable, m: LiveMap<T>)
    requires PassFirings(items, writes, m) == 0
    ensures Settles(items, writes, m)
  {
    hide PassFirings;
    assert Passes(items, writes, m, 0) == m;
  }

  lemma StopsSooner(items: seq<ConflictItem>, from: set<int>, k: int, n: nat)
    requires n > 0 && Hopped(items, from, k) && forall j :: j in from ==> StopsWithin(items, j, n)
    ensures StopsWithin(items, k, n - 1)
  {
    hide Moves, Hop;
    var j :| j in from && k == Hop(items, j);
    if !Moves(items, j) {
      RestStays(items, j);
    }
  }

  // ----- Otherwise some lone packet is moved for ever -----

  lemma {:induction false} LonePass<T>(items: seq<ConflictItem>, writes: WriteTable, m: LiveMap<T>, k: int)
    requires m.Keys == {k}
    ensures Pass(items, writes, m).Keys == {Hop(items, k)}
    ensures PassFirings(items, writes, m) == 0 ==> !Moves(items, k)
  {
    hide Moves, Step;
    MovesCons(items, k);
    if items == [] {
    } else {
      LoneStep(items[0], writes, m, k);
      LonePass(items[1..], writes, Step(items[0], writes, m), if Takes(items[0], k) then items[0].parent else k);
    }
  }

  lemma LoneStep<T>(ci: ConflictItem, writes: WriteTable, m: LiveMap<T>, k: int)
    requires m.Keys == {k}
    ensures Step(ci, writes, m).Keys == {if Takes(ci, k) then ci.parent else k}
    ensures Enabled(ci, m) <==> Takes(ci, k)
  {
    hide Merged;
  }

  lemma {:induction false} LonePasses<T>(items: seq<ConflictItem>, writes: WriteTable, m: LiveMap<T>, k: int, n: nat)
    requires m.Keys == {k}
    ensures Passes(items, writes, m, n).Keys == {Walk(items, k, n)}
    decreases n
  {
    hide Pass, Hop;
    if n == 0 {
    } else {
      LonePasses(items, writes, m, k, n - 1);
      LonePass(items, writes, Passes(items, writes, m, n - 1), Walk(items, k, n - 1));
    }
  }

  lemma {:induction false} WalkFrom(items: seq<ConflictItem>, k: int, i: nat, t: nat)
    ensures Walk(items, Walk(items, k, i), t) == Walk(items, k, i + t)
    decreases t
  {
    hide Hop;
    if t == 0 {
    } else {
      WalkFrom(items, k, i, t - 1);
    }
  }

  lemma {:induction false} MovesUntil(items: seq<ConflictItem>, k: int, n: nat, i: nat)
    requires !StopsWithin(items, k, n) && i <= n
    ensures Moves(items, Walk(items, k, i))
    decreases n
  {
    hide Moves, Hop;
    if i == 0 {
    } else {
      MovesUntil(items, Hop(items, k), n - 1, i - 1);
      assert Walk(items, k, 0) == k && Walk(items, k, 1) == Hop(items, k);
      WalkFrom(items, k, 1, i - 1);
    }
  }

  function Majors(items: seq<ConflictItem>): set<int> {
    set i | 0 <= i < |items| :: items[i].major
  }

  lemma {:induction false} FewMajors(items: seq<ConflictItem>)
    ensures |Majors(items)| <= |items|
  {
    if items == [] {
    } else {
      FewMajors(items[1..]);
      forall k
        ensures k in Majors(items) <==> k in {items[0].major} + Majors(items[1..])
      {
        if i :| 0 < i < |items| && k == items[i].major {
          assert items[1..][i - 1].major == k;
        }
        if i :| 0 <= i < |items[1..]| && k == items[1..][i].major {
          assert items[i + 1].major == k;
        }
      }
      assert Majors(items) == {items[0].major} + Majors(items[1..]);
    }
  }

  /** More places than nodes: some node comes twice. */
  lemma {:induction false} ComesTwice(s: seq<int>, nodes: set<int>) returns (i: nat, j: nat)
    requires |s| > |nodes| && forall t :: 0 <= t < |s| ==> s[t] in nodes
    ensures i < j < |s| && s[i] == s[j]
  {
    if j' :| 0 < j' < |s| && s[j'] == s[0] {
      i, j := 0, j';
    } else {
      assert forall t :: 0 <= t < |s[1..]| ==> s[1..][t] == s[t + 1];
      i, j := ComesTwice(s[1..], nodes - {s[0]});
      i, j := i + 1, j + 1;
    }
  }

  /** A walk that is not over after as many passes as the list is long has
      come to some node twice. */
  lemma Returns(items: seq<ConflictItem>, k: int) returns (i: nat, j: nat)
    requires !StopsWithin(items, k, |items|)
    ensures i < j <= |items| && Walk(items, k, i) == Walk(items, k, j)
    ensures forall n: nat :: n <= |items| ==> Moves(items, Walk(items, k, n))
  {
    hide StopsWithin, Walk;
    var places := seq(|items| + 1, n requires 0 <= n => Walk(items, k, n));
    forall n: nat | n <= |items|
      ensures Moves(items, Walk(items, k, n)) && Walk(items, k, n) in Majors(items)
    {
      MovesUntil(items, k, |items|, n);
    }
    FewMajors(items);
    i, j := ComesTwice(places, Majors(items));
  }

  lemma {:induction false} NeverRests(items: seq<ConflictItem>, k: int, i: nat, j: nat, n: nat)
    requires i < j && Walk(items, k, i) == Walk(items, k, j)
    requires forall t: nat :: t <= j ==> Moves(items, Walk(items, k, t))
    ensures Moves(items, Walk(items, k, n))
    decreases n
  {
    hide Moves, Walk;
    if n <= j {
    } else {
      NeverRests(items, k, i, j, n - (j - i));
      WalkFrom(items, k, i, n - j);
      WalkFrom(items, k, j, n - j);
    }
  }

  lemma LoneNeverSettles<T>(items: seq<ConflictItem>, writes: WriteTable, m: LiveMap<T>, k: int)
    requires m.Keys == {k} && !StopsWithin(items, k, |items|)
    ensures !Settles(items, writes, m)
  {
    hide Pass, PassFirings, Passes, Moves, Walk, StopsWithin;
    var i, j := Returns(items, k);
    forall n: nat
      ensures PassFirings(items, writes, Passes(items, writes, m, n)) != 0
    {
      NeverRests(items, k, i, j, n);
      LonePasses(items, writes, m, k, n);
      LonePass(items, writes, Passes(items, writes, m, n), Walk(items, k, n));
    }
  }

  /** The loop ends for every set of packets if and only if from each major on
      the list a lone packet comes to rest, which as many passes as the list is
      long decide. */
  lemma LoopEndsExactly<T(!new)>(items: seq<ConflictItem>, writes: WriteTable, a: Info<T>)
    ensures (forall m: LiveMap<T> :: Settles(items, writes, m)) <==> EveryWalkStops(items)
  {
    hide Settles, StopsWithin;
    if EveryWalkStops(items) {
      forall m: LiveMap<T>
        ensures Settles(items, writes, m)
      {
        forall k | k in m
          ensures StopsWithin(items, k, |items|)
        {
          AllStop(items, k);
        }
        SettlesFrom(items, writes, m, |items|);
      }
    } else {
      var i :| 0 <= i < |items| && !StopsWithin(items, items[i].major, |items|);
      var m: LiveMap<T> := map[items[i].major := a];
      LoneNeverSettles(items, writes, m, items[i].major);
    }
  }

  // ----- Lists of acyclic graphs -----

  /** Items of a node with itself stand at a node of higher rank. */
  ghost predicate Upward(items: seq<ConflictItem>, rank: int -> int) {
    forall i :: 0 <= i < |items| && items[i].major == items[i].minor ==> rank(items[i].parent) > rank(items[i].major)
  }

  lemma {:induction false} HopClimbs(items: seq<ConflictItem>, rank: int -> int, k: int)
    requires Upward(items, rank)
    ensures rank(Hop(items, k)) >= rank(k)
    ensures Moves(items, k) ==> rank(Hop(items, k)) > rank(k)
  {
    hide Moves;
    MovesCons(items, k);
    if items == [] {
    } else {
      assert Upward(items[1..], rank) by {
        assert forall i :: 0 <= i < |items[1..]| ==> items[1..][i] == items[i + 1];
      }
      HopClimbs(items[1..], rank, if Takes(items[0], k) then items[0].parent else k);
    }
  }

  lemma {:induction false} WalkClimbs(items: seq<ConflictItem>, rank: int -> int, k: int, i: nat, j: nat)
    requires Upward(items, rank) && i <= j && forall n: nat :: n < j ==> Moves(items, Walk(items, k, n))
    ensures rank(Walk(items, k, j)) >= rank(Walk(items, k, i)) + (j - i)
    decreases j
  {
    hide Moves, Upward;
    if i == j {
    } else {
      WalkClimbs(items, rank, k, i, j - 1);
      HopClimbs(items, rank, Walk(items, k, j - 1));
    }
  }

  /** So the loop ends for every list in which parents rank above their
      majors, as those of an acyclic graph do, items of a node with itself
      included; and for every list without such items. */
  lemma UpwardListsEnd(items: seq<ConflictItem>, rank: int -> int)
    requires Upward(items, rank) || Irreflexive(items)
    ensures EveryWalkStops(items)
  {
    hide StopsWithin, Walk, Upward, Moves;
    forall k | !StopsWithin(items, k, |items|)
      ensures Moves(items, k) && !Upward(items, rank)
    {
      var i, j := Returns(items, k);
      if Upward(items, rank) {
        WalkClimbs(items, rank, k, i, j);
      }
      MovesUntil(items, k, |items|, 0);
      WalkStart(items, k);
    }
    NoneMoves(items);
  }

  lemma WalkStart(items: seq<ConflictItem>, k: int)
    ensures Walk(items, k, 0) == k
  {
  }

  lemma NoneMoves(items: seq<ConflictItem>)
    ensures Irreflexive(items) ==> forall k :: !Moves(items, k)
  {
  }
}

/** Network functions as functions on packets within their action-table rows, and when running
    two of them on copies of a packet is the same as running one after the other. */
module NetworkFunctions {
  import opened Packets
  import opened MergeSpec

  type Behaviour = Wire -> Wire

  /** The fields a function looks at, those it may write, and whether it may drop. */
  datatype Profile = Profile(readSet: set<Field>, writeSet: set<Field>, drops: bool)

  /** A function that writes a field may leave it as it was, so it depends on
      it; and the merger can carry only some fields over. */
  ghost predicate WellProfiled(s: Profile) {
    s.writeSet <= s.readSet && s.writeSet <= MERGEABLE
  }

  /** The behaviour stays within the profile: null packets stay null, only
      writable fields change, only droppers drop, and both the drop and the
      written values depend on the readable fields alone. */
  ghost predicate Respects(f: Behaviour, s: Profile) {
    && (forall p :: IsNull(p) ==> IsNull(f(p)))
    && (forall p :: !IsNull(p) && !IsNull(f(p)) ==> AgreeOutside(p, f(p), s.writeSet))
    && (forall p :: !IsNull(p) && IsNull(f(p)) ==> s.drops)
    && (forall p, q :: !IsNull(p) && !IsNull(q) && AgreeOn(p, q, s.readSet) ==> SameReaction(f, s, p, q))
  }

  ghost predicate SameReaction(f: Behaviour, s: Profile, p: Wire, q: Wire) {
    (IsNull(f(p)) <==> IsNull(f(q))) && (!IsNull(f(p)) ==> AgreeOn(f(p), f(q), s.writeSet))
  }

  function Then(f: Behaviour, g: Behaviour): Behaviour {
    p => g(f(p))
  }

  function Compose(s: Profile, t: Profile): Profile {
    Profile(s.readSet + t.readSet, s.writeSet + t.writeSet, s.drops || t.drops)
  }

  lemma AgreeAfter(f: Behaviour, s: Profile, p: Wire, q: Wire, fields: set<Field>)
    requires Respects(f, s) && !IsNull(p) && !IsNull(q) && !IsNull(f(p)) && !IsNull(f(q))
    requires AgreeOn(p, q, s.readSet) && AgreeOn(p, q, fields)
    ensures AgreeOn(f(p), f(q), fields + s.writeSet)
  {
    assert SameReaction(f, s, p, q);
    assert AgreeOutside(p, f(p), s.writeSet) && AgreeOutside(q, f(q), s.writeSet);
  }

  lemma ThenReaction(f: Behaviour, s: Profile, g: Behaviour, t: Profile, p: Wire, q: Wire)
    requires Respects(f, s) && Respects(g, t)
    requires !IsNull(p) && !IsNull(q) && AgreeOn(p, q, s.readSet + t.readSet)
    ensures SameReaction(Then(f, g), Compose(s, t), p, q)
  {
    assert AgreeOn(p, q, s.readSet) && AgreeOn(p, q, t.readSet);
    assert SameReaction(f, s, p, q);
    if !IsNull(f(p)) {
      AgreeAfter(f, s, p, q, t.readSet);
      assert AgreeOn(f(p), f(q), t.readSet) && AgreeOn(f(p), f(q), s.writeSet);
      assert SameReaction(g, t, f(p), f(q));
      if !IsNull(g(f(p))) {
        AgreeAfter(g, t, f(p), f(q), s.writeSet);
      }
    }
  }

  /** Running one function after the other keeps to the two profiles together. */
  lemma ThenRespects(f: Behaviour, s: Profile, g: Behaviour, t: Profile)
    requires Respects(f, s) && Respects(g, t)
    ensures Respects(Then(f, g), Compose(s, t))
  {
    var h, u := Then(f, g), Compose(s, t);
    forall p | !IsNull(p) && !IsNull(h(p))
      ensures AgreeOutside(p, h(p), u.writeSet)
    {
      assert AgreeOutside(p, f(p), s.writeSet) && AgreeOutside(f(p), g(f(p)), t.writeSet);
    }
    forall p, q | !IsNull(p) && !IsNull(q) && AgreeOn(p, q, u.readSet)
      ensures SameReaction(h, u, p, q)
    {
      ThenReaction(f, s, g, t, p, q);
    }
  }

  lemma RespectsPointwise(f: Behaviour, g: Behaviour, s: Profile)
    requires Respects(f, s) && forall p :: f(p) == g(p)
    ensures Respects(g, s)
  {
    forall p | !IsNull(p) && !IsNull(g(p))
      ensures AgreeOutside(p, g(p), s.writeSet)
    {
      assert AgreeOutside(p, f(p), s.writeSet);
    }
    forall p, q | !IsNull(p) && !IsNull(q) && AgreeOn(p, q, s.readSet)
      ensures SameReaction(g, s, p, q)
    {
      assert SameReaction(f, s, p, q);
    }
  }

  /** The merge of two copies, null packets included. */
  function MergeTwo(major: Info<Bytes>, minor: Info<Bytes>): Outcome {
    if IsNull(major.fields) || IsNull(minor.fields) then Dropped else Delivered(Overlay(major, minor).fields)
  }

  /** If f writes nothing that g reads, then f and g run on two copies of a
      packet and merged, in either order of precedence, give what g gives
      after f; and the two copies agree outside what they wrote. */
  lemma ParallelEqualsSequential(f: Behaviour, s: Profile, g: Behaviour, t: Profile, p: Wire)
    requires WellProfiled(s) && WellProfiled(t) && Respects(f, s) && Respects(g, t)
    requires s.writeSet !! t.readSet
    ensures MergeTwo(Info(f(p), s.writeSet), Info(g(p), t.writeSet)) == OutcomeOf(g(f(p)))
    ensures MergeTwo(Info(g(p), t.writeSet), Info(f(p), s.writeSet)) == OutcomeOf(g(f(p)))
  {
    if !IsNull(p) && !IsNull(f(p)) {
      assert AgreeOutside(p, f(p), s.writeSet);
      assert AgreeOn(p, f(p), t.readSet);
      assert SameReaction(g, t, p, f(p));
      if !IsNull(g(p)) {
        assert AgreeOutside(p, g(p), t.writeSet);
        assert AgreeOutside(f(p), g(f(p)), t.writeSet);
        var a, b := Info(f(p), s.writeSet), Info(g(p), t.writeSet);
        OverlayCommutes(a, b);
        var merged := Overlay(a, b).fields;
        forall x: Field
          ensures merged.Get(x) == g(f(p)).Get(x)
        {
          assert merged.Get(x) == Choose(x, a, b);
        }
        AgreeEverywhere(merged, g(f(p)));
      }
    }
  }

  // ----- Exactly when two profiles may run in parallel -----

  /** What the behaviour makes of a real packet is a real packet. */
  ghost predicate KeepsForm(f: Behaviour) {
    forall p :: WellFormed(p) ==> WellFormed(f(p))
  }

  /** For all behaviours within the two profiles and for every real packet,
      the merge of the parallel run is the result of the sequential run. */
  ghost predicate AlwaysParallel(s: Profile, t: Profile) {
    forall f: Behaviour, g: Behaviour, p: Wire ::
      Respects(f, s) && Respects(g, t) && KeepsForm(f) && KeepsForm(g) && WellFormed(p) ==>
        MergeTwo(Info(f(p), s.writeSet), Info(g(p), t.writeSet)) == OutcomeOf(g(f(p)))
  }

  /** The two write no common field, and the second reads nothing the first
      writes unless it can neither write nor drop at all. */
  predicate Harmless(s: Profile, t: Profile) {
    s.writeSet !! t.writeSet && (s.writeSet !! t.readSet || (t.writeSet == {} && !t.drops))
  }

  function Put(p: Wire, f: Field, v: Bytes): (q: Wire)
    ensures q.Get(f) == v && AgreeOutside(p, q, {f})
  {
    match f
    case SIP => p.(sip := v)
    case DIP => p.(dip := v)
    case SPORT => p.(sport := v)
    case DPORT => p.(dport := v)
    case PAYLOAD => p.(payload := v)
  }

  function Nullified(p: Wire): Wire {
    p.(sip := [0, 0, 0, 0], sport := [0, 0])
  }

  /** Writes v into field y of packets whose field x has value w. */
  function WriteIf(x: Field, w: Bytes, y: Field, v: Bytes): Behaviour {
    p => if IsNull(p) || p.Get(x) != w then p else Put(p, y, v)
  }

  function AlwaysWrite(y: Field, v: Bytes): Behaviour {
    p => if IsNull(p) then p else Put(p, y, v)
  }

  function DropIf(x: Field, w: Bytes): Behaviour {
    p => if IsNull(p) || p.Get(x) != w then p else Nullified(p)
  }

  lemma PutKeepsNull(p: Wire, y: Field, v: Bytes)
    requires y in MERGEABLE
    ensures IsNull(Put(p, y, v)) == IsNull(p)
  {
  }

  lemma AlwaysWriteRespects(y: Field, v: Bytes, s: Profile)
    requires WellProfiled(s) && y in s.writeSet
    ensures Respects(AlwaysWrite(y, v), s)
  {
    var f := AlwaysWrite(y, v);
    forall p {
      PutKeepsNull(p, y, v);
    }
    forall p, q | !IsNull(p) && !IsNull(q) && AgreeOn(p, q, s.readSet)
      ensures SameReaction(f, s, p, q)
    {
      PutAgrees(p, q, y, v, s.writeSet);
    }
  }

  lemma PutAgrees(p: Wire, q: Wire, y: Field, v: Bytes, fields: set<Field>)
    requires AgreeOn(p, q, fields)
    ensures AgreeOn(Put(p, y, v), Put(q, y, v), fields)
  {
    forall x: Field | x in fields
      ensures Put(p, y, v).Get(x) == Put(q, y, v).Get(x)
    {
      assert p.Get(x) == q.Get(x);
      if x != y {
        assert Put(p, y, v).Get(x) == p.Get(x) && Put(q, y, v).Get(x) == q.Get(x);
      }
    }
  }

  lemma WriteIfRespects(x: Field, w: Bytes, y: Field, v: Bytes, s: Profile)
    requires WellProfiled(s) && y in s.writeSet && x in s.readSet
    ensures Respects(WriteIf(x, w, y, v), s)
  {
    var f := WriteIf(x, w, y, v);
    forall p {
      PutKeepsNull(p, y, v);
    }
    forall p, q | !IsNull(p) && !IsNull(q) && AgreeOn(p, q, s.readSet)
      ensures SameReaction(f, s, p, q)
    {
      assert p.Get(x) == q.Get(x);
      PutAgrees(p, q, y, v, s.writeSet);
    }
  }

  lemma DropIfRespects(x: Field, w: Bytes, s: Profile)
    requires WellProfiled(s) && s.drops && x in s.readSet
    ensures Respects(DropIf(x, w), s)
  {
    var f := DropIf(x, w);
    forall p, q | !IsNull(p) && !IsNull(q) && AgreeOn(p, q, s.readSet)
      ensures SameReaction(f, s, p, q)
    {
      assert p.Get(x) == q.Get(x);
    }
  }

  /** A packet, and for each of its fields another value. */
  function SamplePacket(): Wire {
    Fields([10, 0, 0, 1], [10, 0, 0, 2], [31, 144], [31, 145], [], [0, 7])
  }

  function OtherValue(f: Field): (v: Bytes)
    ensures FitsField(f, v) && v != SamplePacket().Get(f)
  {
    match f
    case SPORT => [31, 146]
    case DPORT => [31, 146]
    case PAYLOAD => [1]
    case _ => [10, 0, 0, 3]
  }

  lemma SampleIsReal()
    ensures WellFormed(SamplePacket()) && !IsNull(SamplePacket())
  {
  }

  lemma PutKeepsForm(p: Wire, y: Field, v: Bytes)
    requires WellFormed(p) && FitsField(y, v)
    ensures WellFormed(Put(p, y, v))
  {
    forall x: Field
      ensures FitsField(x, Put(p, y, v).Get(x))
    {
      assert x != y ==> Put(p, y, v).Get(x) == p.Get(x);
    }
  }

  lemma WritersKeepForm(x: Field, w: Bytes, y: Field, v: Bytes)
    requires FitsField(y, v)
    ensures KeepsForm(AlwaysWrite(y, v)) && KeepsForm(WriteIf(x, w, y, v)) && KeepsForm(DropIf(x, w))
  {
    forall p | WellFormed(p)
      ensures WellFormed(AlwaysWrite(y, v)(p)) && WellFormed(WriteIf(x, w, y, v)(p)) && WellFormed(DropIf(x, w)(p))
    {
      PutKeepsForm(p, y, v);
      NullifiedKeepsForm(p);
    }
  }

  lemma NullifiedKeepsForm(p: Wire)
    requires WellFormed(p)
    ensures WellFormed(Nullified(p))
  {
    forall x: Field
      ensures FitsField(x, Nullified(p).Get(x))
    {
      assert x != SIP && x != SPORT ==> Nullified(p).Get(x) == p.Get(x);
    }
  }

  /** The two functions keep to their profiles and to real packets, and differ on the sample. */
  ghost predicate Differs(f: Behaviour, s: Profile, g: Behaviour, t: Profile) {
    Respects(f, s) && Respects(g, t) && KeepsForm(f) && KeepsForm(g)
    && var p := SamplePacket(); MergeTwo(Info(f(p), s.writeSet), Info(g(p), t.writeSet)) != OutcomeOf(g(f(p)))
  }

  /** Profiles that clash have functions that a real packet tells apart. */
  lemma ClashIsVisible(s: Profile, t: Profile)
    requires WellProfiled(s) && WellProfiled(t) && !Harmless(s, t)
    ensures !AlwaysParallel(s, t)
  {
    hide Respects, KeepsForm, WellFormed, SamplePacket, AlwaysWrite, DropIf, WriteIf, MergeTwo, OutcomeOf;
    SampleIsReal();
    if x :| x in s.writeSet && x in t.writeSet {
      SharedWriteDiffers(s, t, x);
    } else {
      var x :| x in s.writeSet && x in t.readSet;
      if t.drops {
        DropDiffers(s, t, x);
      } else {
        var y :| y in t.writeSet;
        WriteDiffers(s, t, x, y);
      }
    }
  }

  lemma SharedWriteDiffers(s: Profile, t: Profile, x: Field)
    requires WellProfiled(s) && WellProfiled(t) && x in s.writeSet && x in t.writeSet
    ensures Differs(AlwaysWrite(x, OtherValue(x)), s, AlwaysWrite(x, SamplePacket().Get(x)), t)
  {
    hide Respects, KeepsForm, SamplePacket, OtherValue;
    var p, v := SamplePacket(), OtherValue(x);
    var u := p.Get(x);
    var f, g := AlwaysWrite(x, v), AlwaysWrite(x, u);
    SampleIsReal();
    AlwaysWriteRespects(x, v, s);
    AlwaysWriteRespects(x, u, t);
    WritersKeepForm(x, v, x, v);
    WritersKeepForm(x, u, x, u);
    PutKeepsNull(p, x, v);
    PutKeepsNull(p, x, u);
    PutKeepsNull(f(p), x, u);
    assert g(f(p)).Get(x) == u;
    assert Overlay(Info(f(p), s.writeSet), Info(g(p), t.writeSet)).fields.Get(x) == v;
  }

  lemma DropDiffers(s: Profile, t: Profile, x: Field)
    requires WellProfiled(s) && WellProfiled(t) && x in s.writeSet && x in t.readSet && t.drops
    ensures Differs(AlwaysWrite(x, OtherValue(x)), s, DropIf(x, OtherValue(x)), t)
  {
    hide Respects, KeepsForm, SamplePacket, OtherValue;
    var p, v := SamplePacket(), OtherValue(x);
    var f, g := AlwaysWrite(x, v), DropIf(x, v);
    SampleIsReal();
    AlwaysWriteRespects(x, v, s);
    DropIfRespects(x, v, t);
    WritersKeepForm(x, v, x, v);
    PutKeepsNull(p, x, v);
    assert f(p).Get(x) == v && g(p) == p && IsNull(g(f(p)));
  }

  lemma WriteDiffers(s: Profile, t: Profile, x: Field, y: Field)
    requires WellProfiled(s) && WellProfiled(t) && x in s.writeSet && x in t.readSet && y in t.writeSet && y !in s.writeSet
    ensures Differs(AlwaysWrite(x, OtherValue(x)), s, WriteIf(x, OtherValue(x), y, OtherValue(y)), t)
  {
    hide Respects, KeepsForm, SamplePacket, OtherValue;
    var p, v, u := SamplePacket(), OtherValue(x), OtherValue(y);
    var f, g := AlwaysWrite(x, v), WriteIf(x, v, y, u);
    SampleIsReal();
    AlwaysWriteRespects(x, v, s);
    WriteIfRespects(x, v, y, u, t);
    WritersKeepForm(x, v, x, v);
    WritersKeepForm(x, v, y, u);
    PutKeepsNull(p, x, v);
    PutKeepsNull(f(p), y, u);
    assert f(p).Get(x) == v && f(p).Get(y) == p.Get(y);
    assert g(p) == p && g(f(p)).Get(y) == u;
    assert Overlay(Info(f(p), s.writeSet), Info(g(p), t.writeSet)).fields.Get(y) == p.Get(y);
  }

  /** Two functions may run in parallel, whatever they do within their
      profiles, exactly when their profiles are harmless to each other. */
  lemma AlwaysParallelExactly(s: Profile, t: Profile)
    requires WellProfiled(s) && WellProfiled(t)
    ensures AlwaysParallel(s, t) <==> Harmless(s, t)
  {
    if Harmless(s, t) {
      forall f: Behaviour, g: Behaviour, p: Wire
        | Respects(f, s) && Respects(g, t) && KeepsForm(f) && KeepsForm(g) && WellFormed(p)
        ensures MergeTwo(Info(f(p), s.writeSet), Info(g(p), t.writeSet)) == OutcomeOf(g(f(p)))
      {
        if s.writeSet !! t.readSet {
          ParallelEqualsSequential(f, s, g, t, p);
        } else {
          SilentSecond(f, s, g, t, p);
        }
      }
    } else {
      ClashIsVisible(s, t);
    }
  }

  lemma SilentSecond(f: Behaviour, s: Profile, g: Behaviour, t: Profile, p: Wire)
    requires Respects(f, s) && Respects(g, t) && t.writeSet == {} && !t.drops
    ensures MergeTwo(Info(f(p), s.writeSet), Info(g(p), t.writeSet)) == OutcomeOf(g(f(p)))
  {
    forall q | !IsNull(q)
      ensures g(q) == q
    {
      assert AgreeOutside(q, g(q), t.writeSet);
      AgreeEverywhere(q, g(q));
    }
    if !IsNull(p) && !IsNull(f(p)) {
      var merged := Overlay(Info(f(p), s.writeSet), Info(p, {}));
      forall x: Field
        ensures merged.fields.Get(x) == f(p).Get(x)
      {
        assert merged.fields.Get(x) == Choose(x, Info(f(p), s.writeSet), Info(p, {}));
      }
      AgreeEverywhere(merged.fields, f(p));
    }
  }
}

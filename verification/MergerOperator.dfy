/** The merger at run time.

    Packets are objects that share buffers, and merging happens in place: a
    merge writes into the major packet's own buffer, unless the payload is
    among the writes, which moves to a fresh buffer. Every live packet is
    described by the leaves that supply its fields. Live packets share neither
    a buffer nor a leaf, and that is what makes merging in place give the
    packet that merging copies would give. */
module MergerOperator {
  import opened Packets
  import opened MergeSpec
  import opened Provenance
  import opened PacketBuffer
  import opened ActionTable

  /** A packet object on its way through the merge. */
  datatype PacketInfo = PacketInfo(nodeId: int, pkt: Packet, writtenFields: set<Field>)

  const FIELD_ORDER: seq<Field> := [SIP, DIP, SPORT, DPORT, PAYLOAD]

  function Rank(f: Field): (i: nat)
    ensures i < |FIELD_ORDER| && FIELD_ORDER[i] == f
  {
    match f
    case SIP => 0
    case DIP => 1
    case SPORT => 2
    case DPORT => 3
    case PAYLOAD => 4
  }

  /** The fields before the i-th have been merged. */
  ghost predicate MergedUpTo(v: Wire, major: Wire, minor: Wire, majorFields: set<Field>, minorFields: set<Field>, i: nat)
  {
    v.id == major.id && forall f: Field :: v.Get(f) == MergedField(f, major, minor, majorFields, minorFields, i)
  }

  ghost function MergedField(f: Field, major: Wire, minor: Wire, majorFields: set<Field>, minorFields: set<Field>,
                             i: nat): Bytes {
    if Rank(f) < i && FromMinor(f, majorFields, minorFields) then minor.Get(f) else major.Get(f)
  }

  /** Merges the minor packet's writes into the major packet's own buffer,
      unless the payload is among them: that moves to a fresh buffer. */
  method ResolvePacketConflict(major: PacketInfo, minor: PacketInfo, parent: int) returns (pi: PacketInfo)
    requires major.pkt.Valid() && minor.pkt.Valid() && major.pkt.pkt != minor.pkt.pkt
    modifies major.pkt.pkt
    ensures fresh(pi.pkt) && pi.pkt.Valid() && major.pkt.Valid() && pi.nodeId == parent
    ensures pi.pkt.pkt == major.pkt.pkt || fresh(pi.pkt.pkt)
    ensures old(IsNull(major.pkt.Value()) || IsNull(minor.pkt.Value())) ==>
              IsNull(pi.pkt.Value()) && pi.writtenFields == {} && pi.pkt.pkt == major.pkt.pkt
    ensures old(!IsNull(major.pkt.Value()) && !IsNull(minor.pkt.Value())) ==>
              Info(pi.pkt.Value(), pi.writtenFields) ==
              old(Overlay(Info(major.pkt.Value(), major.writtenFields), Info(minor.pkt.Value(), minor.writtenFields)))
    ensures old(!IsNull(major.pkt.Value()) && !IsNull(minor.pkt.Value())) ==>
              Untouched(old(major.pkt.Value()), major.pkt.Value(), major.writtenFields, minor.writtenFields)
  {
    var pkt := new Packet.FromBuffer(major.pkt.pkt);
    var majorNull := major.pkt.CheckNull();
    var minorNull := minor.pkt.CheckNull();
    if majorNull || minorNull {
      pkt.Nullify();
      pi := PacketInfo(parent, pkt, {});
    } else {
      AddMinorWrites(pkt, major, minor);
      pi := PacketInfo(parent, pkt, minor.writtenFields + major.writtenFields);
      UnionCommutes(minor.writtenFields, major.writtenFields);
    }
  }

  lemma UnionCommutes<T>(a: set<T>, b: set<T>)
    ensures a + b == b + a
  {
  }

  method AddMinorWrites(pkt: Packet, major: PacketInfo, minor: PacketInfo)
    requires major.pkt.Valid() && minor.pkt.Valid() && major.pkt.pkt != minor.pkt.pkt
    requires pkt != major.pkt && pkt != minor.pkt && pkt.pkt == major.pkt.pkt
    modifies pkt`pkt, pkt.pkt
    ensures pkt.Valid() && major.pkt.Valid()
    ensures pkt.pkt == major.pkt.pkt || fresh(pkt.pkt)
    ensures pkt.Value() ==
            old(Overlay(Info(major.pkt.Value(), major.writtenFields), Info(minor.pkt.Value(), minor.writtenFields))).fields
    ensures Untouched(old(major.pkt.Value()), major.pkt.Value(), major.writtenFields, minor.writtenFields)
  {
    hide Decode, IsTcpOverIp, MergedUpTo, Untouched, Copied, KeptBut, Overlay, FromMinor;
    ghost var majorValue, minorValue := major.pkt.Value(), minor.pkt.Value();
    NoneMerged(majorValue, minorValue, major.writtenFields, minor.writtenFields);
    UntouchedSame(majorValue, major.writtenFields, minor.writtenFields);
    for i := 0 to |FIELD_ORDER|
      invariant pkt.Valid() && major.pkt.Valid()
      invariant pkt.pkt == major.pkt.pkt || fresh(pkt.pkt)
      invariant minor.pkt.Valid() && minor.pkt.Value() == minorValue
      invariant MergedUpTo(pkt.Value(), majorValue, minorValue, major.writtenFields, minor.writtenFields, i)
      invariant Untouched(majorValue, major.pkt.Value(), major.writtenFields, minor.writtenFields)
    {
      var field := FIELD_ORDER[i];
      if field in minor.writtenFields && field !in major.writtenFields {
        ghost var before, majorBefore := pkt.Value(), major.pkt.Value();
        CopyField(field, minor.pkt, pkt);
        OneMore(before, pkt.Value(), majorValue, minorValue, major.writtenFields, minor.writtenFields, i);
        StillUntouched(majorValue, majorBefore, major.pkt.Value(), major.writtenFields, minor.writtenFields, field);
      } else {
        Skipped(pkt.Value(), majorValue, minorValue, major.writtenFields, minor.writtenFields, i);
      }
    }
    AllMerged(pkt.Value(), majorValue, minorValue, major.writtenFields, minor.writtenFields);
  }

  lemma NoneMerged(major: Wire, minor: Wire, majorFields: set<Field>, minorFields: set<Field>)
    ensures MergedUpTo(major, major, minor, majorFields, minorFields, 0)
  {
  }

  lemma Skipped(v: Wire, major: Wire, minor: Wire, majorFields: set<Field>, minorFields: set<Field>, i: nat)
    requires i < |FIELD_ORDER| && !(FIELD_ORDER[i] in minorFields && FIELD_ORDER[i] !in majorFields)
    requires MergedUpTo(v, major, minor, majorFields, minorFields, i)
    ensures MergedUpTo(v, major, minor, majorFields, minorFields, i + 1)
  {
    forall f: Field
      ensures v.Get(f) == MergedField(f, major, minor, majorFields, minorFields, i + 1)
    {
      assert v.Get(f) == MergedField(f, major, minor, majorFields, minorFields, i);
      assert f == FIELD_ORDER[i] <==> Rank(f) == i;
    }
  }

  lemma OneMore(before: Wire, after: Wire, major: Wire, minor: Wire, majorFields: set<Field>, minorFields: set<Field>, i: nat)
    requires i < |FIELD_ORDER| && FIELD_ORDER[i] in minorFields && FIELD_ORDER[i] !in majorFields
    requires MergedUpTo(before, major, minor, majorFields, minorFields, i)
    requires Copied(before, after, minor, FIELD_ORDER[i])
    ensures MergedUpTo(after, major, minor, majorFields, minorFields, i + 1)
  {
    forall f: Field
      ensures after.Get(f) == MergedField(f, major, minor, majorFields, minorFields, i + 1)
    {
      assert before.Get(f) == MergedField(f, major, minor, majorFields, minorFields, i);
      assert f == FIELD_ORDER[i] <==> Rank(f) == i;
    }
  }

  lemma StillUntouched(start: Wire, before: Wire, after: Wire, majorFields: set<Field>, minorFields: set<Field>, field: Field)
    requires Untouched(start, before, majorFields, minorFields)
    requires field in minorFields && field !in majorFields
    requires KeptBut(before, after, field)
    ensures Untouched(start, after, majorFields, minorFields)
  {
  }

  lemma AllMerged(v: Wire, major: Wire, minor: Wire, majorFields: set<Field>, minorFields: set<Field>)
    requires MergedUpTo(v, major, minor, majorFields, minorFields, |FIELD_ORDER|)
    ensures v == Overlay(Info(major, majorFields), Info(minor, minorFields)).fields
  {
    var merged := Overlay(Info(major, majorFields), Info(minor, minorFields));
    forall f: Field
      ensures v.Get(f) == merged.fields.Get(f)
    {
      assert merged.fields.Get(f) == Choose(f, Info(major, majorFields), Info(minor, minorFields));
      assert v.Get(f) == MergedField(f, major, minor, majorFields, minorFields, |FIELD_ORDER|);
    }
    AgreeEverywhere(v, merged.fields);
  }

  /** A buffer keeps what the merge does not take from the minor packet. */
  ghost predicate Untouched(before: Wire, after: Wire, majorFields: set<Field>, minorFields: set<Field>) {
    before.id == after.id && forall f: Field :: !FromMinor(f, majorFields, minorFields) ==> before.Get(f) == after.Get(f)
  }

  /** The packet after one field has been copied from another, if it is one the merge copies. */
  ghost predicate Copied(before: Wire, after: Wire, from: Wire, field: Field) {
    after.id == before.id && forall f: Field ::
      after.Get(f) == if f == field && f in MERGEABLE then from.Get(f) else before.Get(f)
  }

  /** Nothing but that field, if it is one the merge copies, has changed. */
  ghost predicate KeptBut(before: Wire, after: Wire, field: Field) {
    after.id == before.id && forall f: Field :: f != field || f !in MERGEABLE ==> after.Get(f) == before.Get(f)
  }

  /** Copies one field; a field outside the mergeable ones is left alone. */
  method CopyField(field: Field, from: Packet, to: Packet)
    requires from.Valid() && to.Valid() && from != to && from.pkt != to.pkt
    modifies to`pkt, to.pkt
    ensures to.Valid() && (to.pkt == old(to.pkt) || fresh(to.pkt))
    ensures Copied(old(to.Value()), to.Value(), old(from.Value()), field)
    ensures IsTcpOverIp(old(to.pkt)[..]) && KeptBut(old(to.Value()), Decode(old(to.pkt)[..]), field)
  {
    hide IsTcpOverIp, Decode, Patch, CString;
    match field
    case DIP =>
      var ip := from.GetDestIp();
      to.WriteDestIp(ip);
    case DPORT =>
      var port := from.GetDestPort();
      to.WriteDestPort(port);
    case PAYLOAD =>
      var data := from.GetPayload();
      to.WritePayload(data);
    case SIP =>
    case SPORT =>
  }

  // ----- The stored packets and where their values go -----

  type PacketMap = map<int, Packet>

  ghost function Objects(leaves: PacketMap): set<object> {
    set k | k in leaves :: leaves[k]
  }

  ghost function Buffers(leaves: PacketMap): set<object>
    reads Objects(leaves)
  {
    set k | k in leaves :: leaves[k].pkt
  }

  /** Every packet received sits in a buffer of its own. */
  ghost predicate Stored(leaves: PacketMap)
    reads Objects(leaves), Buffers(leaves)
  {
    (forall k :: k in leaves ==> leaves[k].Valid())
    && (forall j, k :: j in leaves && k in leaves && j != k ==> leaves[j].pkt != leaves[k].pkt)
  }

  ghost function Values(leaves: PacketMap): map<int, Wire>
    requires Stored(leaves)
    reads Objects(leaves), Buffers(leaves)
  {
    map k | k in leaves :: leaves[k].Value()
  }

  const NO_PACKET: Wire := Fields([], [], [], [], [], [])

  function Lookup(values: map<int, Wire>): Leaves<Bytes> {
    Leaves(values, NO_PACKET)
  }

  /** The merge's input: each leaf's packet, written where its function may write. */
  function LeafInfos(values: map<int, Wire>, nodes: map<int, NF>): LiveMap<Bytes> {
    map k | k in values && k in nodes :: Info(values[k], WriteFields(nodes[k]))
  }

  ghost predicate NullAt(values: map<int, Wire>, k: int) {
    k in values && IsNull(values[k])
  }

  /** The current leaf values still hold what the source says is to be taken from them. */
  ghost predicate Intact(src: Fields<int>, now: map<int, Wire>, start: map<int, Wire>) {
    Build(src, Lookup(now)) == Build(src, Lookup(start))
  }

  /** A live packet whose fields come from the leaves that src names. */
  ghost predicate Holds(info: PacketInfo, src: Info<int>, leaves: PacketMap, start: map<int, Wire>)
    reads info.pkt, info.pkt.pkt, Objects(leaves)
  {
    info.pkt.Valid()
    && info.pkt.Value() == Build(src.fields, Lookup(start)) && info.writtenFields == src.written
    && Providers(src.fields) <= leaves.Keys
    && (forall k :: k in leaves && leaves[k].pkt == info.pkt.pkt ==> k == src.fields.sip)
  }

  /** Merging changes only what the merge takes from the minor packet, and
      only in the major's own buffer: whatever a live packet is still to
      supply is where it was. */
  lemma IntactMerge(major: Info<int>, minor: Info<int>, now: map<int, Wire>, after: map<int, Wire>, start: map<int, Wire>)
    requires Intact(major.fields, now, start) && Intact(minor.fields, now, start)
    requires now.Keys == after.Keys
    requires forall k :: k in now && k != major.fields.sip ==> after[k] == now[k]
    requires major.fields.sip in now ==>
               Untouched(now[major.fields.sip], after[major.fields.sip], major.written, minor.written)
    requires major.fields.sip !in Providers(minor.fields)
    ensures Intact(Overlay(major, minor).fields, after, start)
  {
    hide *;
    var merged := Overlay(major, minor).fields;
    forall f: Field
      ensures Build(merged, Lookup(after)).Get(f) == Build(merged, Lookup(start)).Get(f)
      ensures Build(merged, Lookup(after)).id == Build(merged, Lookup(start)).id
    {
      IntactField(major, minor, now, after, start, f);
    }
    IntactField(major, minor, now, after, start, SIP);
    AgreeEverywhere(Build(merged, Lookup(after)), Build(merged, Lookup(start)));
    IsIntact(merged, after, start);
  }

  lemma IsIntact(src: Fields<int>, now: map<int, Wire>, start: map<int, Wire>)
    requires Build(src, Lookup(now)) == Build(src, Lookup(start))
    ensures Intact(src, now, start)
  {
  }

  lemma IntactField(major: Info<int>, minor: Info<int>, now: map<int, Wire>, after: map<int, Wire>, start: map<int, Wire>,
                    f: Field)
    requires Intact(major.fields, now, start) && Intact(minor.fields, now, start)
    requires now.Keys == after.Keys
    requires forall k :: k in now && k != major.fields.sip ==> after[k] == now[k]
    requires major.fields.sip in now ==>
               Untouched(now[major.fields.sip], after[major.fields.sip], major.written, minor.written)
    requires major.fields.sip !in Providers(minor.fields)
    ensures var merged := Overlay(major, minor).fields;
      Build(merged, Lookup(after)).Get(f) == Build(merged, Lookup(start)).Get(f)
      && Build(merged, Lookup(after)).id == Build(merged, Lookup(start)).id
  {
    hide Build, Overlay, Untouched, FromMinor;
    var merged := Overlay(major, minor).fields;
    assert merged.Get(f) == Choose(f, major, minor);
    BuildGet(major.fields, now, f);
    BuildGet(minor.fields, now, f);
    BuildGet(major.fields, start, f);
    BuildGet(minor.fields, start, f);
    BuildGet(merged, after, f);
    BuildGet(merged, start, f);
    StillThere(now, after, major.fields.sip, major.written, minor.written, merged.Get(f), f);
    StillThere(now, after, major.fields.sip, major.written, minor.written, merged.id, f);
    InProviders(minor.fields, f);
  }

  lemma InProviders(p: Fields<int>, f: Field)
    ensures p.Get(f) in Providers(p)
  {
  }

  /** What leaf k holds after the merge. */
  lemma StillThere(now: map<int, Wire>, after: map<int, Wire>, base: int, majorFields: set<Field>, minorFields: set<Field>,
                   k: int, f: Field)
    requires now.Keys == after.Keys && forall j :: j in now && j != base ==> after[j] == now[j]
    requires base in now ==> Untouched(now[base], after[base], majorFields, minorFields)
    ensures Lookup(after).At(k).id == Lookup(now).At(k).id
    ensures k != base || !FromMinor(f, majorFields, minorFields) ==> Lookup(after).At(k).Get(f) == Lookup(now).At(k).Get(f)
  {
    hide FromMinor;
  }

  lemma BuildGet(src: Fields<int>, values: map<int, Wire>, f: Field)
    ensures Build(src, Lookup(values)).Get(f) == Lookup(values).At(src.Get(f)).Get(f)
    ensures Build(src, Lookup(values)).id == Lookup(values).At(src.id).id
  {
  }

  lemma IntactFrame(src: Fields<int>, now: map<int, Wire>, after: map<int, Wire>, start: map<int, Wire>)
    requires Intact(src, now, start) && now.Keys == after.Keys
    requires forall k :: k in Providers(src) && k in now ==> after[k] == now[k]
    ensures Intact(src, after, start)
  {
    forall k | k in Providers(src)
      ensures Lookup(after).At(k) == Lookup(now).At(k)
    {
    }
    assert {src.sip, src.dip, src.sport, src.dport, src.payload, src.id} == Providers(src);
    assert Build(src, Lookup(after)) == Build(src, Lookup(now)) by {
      assert Lookup(after).At(src.sip) == Lookup(now).At(src.sip) && Lookup(after).At(src.dip) == Lookup(now).At(src.dip);
      assert Lookup(after).At(src.sport) == Lookup(now).At(src.sport) && Lookup(after).At(src.dport) == Lookup(now).At(src.dport);
      assert Lookup(after).At(src.payload) == Lookup(now).At(src.payload) && Lookup(after).At(src.id) == Lookup(now).At(src.id);
    }
  }

  lemma BuildOrigin(values: map<int, Wire>, nodes: map<int, NF>)
    ensures BuildMap(Origin(LeafInfos(values, nodes)), Lookup(values)) == LeafInfos(values, nodes)
  {
    var m := LeafInfos(values, nodes);
    forall k | k in m
      ensures BuildInfo(Origin(m)[k], Lookup(values)) == m[k]
    {
    }
  }

  /** What the merge of the stored packets would be, by provenance. */
  lemma OutcomeByOrigin(items: seq<ConflictItem>, values: map<int, Wire>, nodes: map<int, NF>, writes: WriteTable)
    requires Irreflexive(items) && values != map[] && forall k :: k in values ==> k in nodes
    ensures LeafInfos(values, nodes) != map[] && Origin(LeafInfos(values, nodes)) != map[]
    ensures MergeOutcome(items, writes, LeafInfos(values, nodes)) ==
            if exists k :: NullAt(values, k) then Dropped
            else Delivered(Build(MergeAll(items, writes, Origin(LeafInfos(values, nodes))).fields, Lookup(values)))
  {
    var m := LeafInfos(values, nodes);
    var some := Pick(values.Keys);
    assert some in m && some in Origin(m);
    BuildOrigin(values, nodes);
    MergeNatural(items, writes, Origin(m), Lookup(values));
    DropTheorem(items, writes, m);
    assert forall k :: NullAt(values, k) <==> k in m && IsNull(m[k].fields);
  }

  // ----- The merge in place -----

  type LivePackets = map<int, PacketInfo>

  ghost function LiveObjects(live: LivePackets): set<object> {
    set k | k in live :: live[k].pkt
  }

  ghost function LiveBuffers(live: LivePackets): set<object>
    reads LiveObjects(live)
  {
    set k | k in live :: live[k].pkt.pkt
  }

  /** The stored packets have kept their nullness since the start. */
  ghost predicate Base(leaves: PacketMap, start: map<int, Wire>)
    reads Objects(leaves), Buffers(leaves)
  {
    Stored(leaves) && start.Keys == leaves.Keys
    && forall k :: k in leaves ==> IsNull(leaves[k].Value()) == IsNull(start[k])
  }

  /** A live packet holds what its source says, and what it has still to
      supply to a second merge of the stored packets is intact. */
  ghost predicate Entry(info: PacketInfo, src: Info<int>, leaves: PacketMap, start: map<int, Wire>)
    requires Stored(leaves)
    reads info.pkt, info.pkt.pkt, Objects(leaves), Buffers(leaves)
  {
    Holds(info, src, leaves, start) && Intact(src.fields, Values(leaves), start) && src.fields.sip == src.fields.sport
  }

  /** Two live packets share neither a buffer nor a leaf. */
  ghost predicate Apart(x: PacketInfo, xs: Info<int>, y: PacketInfo, ys: Info<int>)
    reads x.pkt, y.pkt
  {
    x.pkt.pkt != y.pkt.pkt && Providers(xs.fields) !! Providers(ys.fields)
  }

  ghost predicate Live(live: LivePackets, sym: LiveMap<int>, leaves: PacketMap, start: map<int, Wire>)
    reads Objects(leaves), Buffers(leaves), LiveObjects(live), LiveBuffers(live)
  {
    Base(leaves, start) && live.Keys == sym.Keys
    && (forall k :: k in live ==> Entry(live[k], sym[k], leaves, start))
    && AllApart(live, sym)
  }

  ghost predicate AllApart(live: LivePackets, sym: LiveMap<int>)
    requires live.Keys == sym.Keys
    reads LiveObjects(live)
  {
    forall j, k :: j in live && k in live && j != k ==> Apart(live[j], sym[j], live[k], sym[k])
  }

  lemma BuffersIn(live: LivePackets)
    ensures forall k :: k in live ==> live[k].pkt.pkt in LiveBuffers(live)
  {
  }

  lemma LiveKeys(live: LivePackets, sym: LiveMap<int>, leaves: PacketMap, start: map<int, Wire>)
    requires Live(live, sym, leaves, start)
    ensures live.Keys == sym.Keys
  {
  }

  /** Some stored packet was null at the start, and those that were still are. */
  ghost predicate Doomed(leaves: PacketMap, start: map<int, Wire>)
    reads Objects(leaves), Buffers(leaves)
  {
    Stored(leaves) && start.Keys == leaves.Keys
    && (exists k :: NullAt(start, k))
    && (forall k :: NullAt(start, k) ==> NullAt(Values(leaves), k))
  }

  /** The stored values after a merge into the buffer of a packet that stems
      from leaf base: that leaf's buffer has only taken what the merge takes. */
  ghost predicate MergedInto(now: map<int, Wire>, after: map<int, Wire>, major: Info<int>, minor: Info<int>) {
    now.Keys == after.Keys
    && (forall k :: k in now && k != major.fields.sip ==> after[k] == now[k])
    && (major.fields.sip in now ==>
          Untouched(now[major.fields.sip], after[major.fields.sip], major.written, minor.written))
  }

  /** Or only that leaf's packet may have become null. */
  ghost predicate DroppedInto(now: map<int, Wire>, after: map<int, Wire>, base: int) {
    now.Keys == after.Keys
    && (forall k :: k in now && k != base ==> after[k] == now[k])
    && (base in now ==> after[base] == now[base] || IsNull(after[base]))
  }

  lemma OverlayProviders(ms: Info<int>, ns: Info<int>)
    ensures Overlay(ms, ns).fields.sip == ms.fields.sip && Overlay(ms, ns).fields.sport == ms.fields.sport
    ensures Providers(Overlay(ms, ns).fields) <= Providers(ms.fields) + Providers(ns.fields)
  {
  }

  /** What a merge into the major packet's buffer leaves behind: the stored
      packets with other buffers are as they were. */
  ghost predicate AfterMerge(pi: PacketInfo, major: PacketInfo, mv: Wire, minorFields: set<Field>, leaves: PacketMap,
                             now: map<int, Wire>)
    reads *
  {
    pi.pkt.Valid() && major.pkt.Valid() && now.Keys == leaves.Keys
    && (forall k :: k in leaves && leaves[k].pkt != major.pkt.pkt ==> leaves[k].Valid() && leaves[k].Value() == now[k])
    && (forall k :: k in leaves && leaves[k].pkt == major.pkt.pkt ==> now[k] == mv)
    && (IsNull(pi.pkt.Value()) ==> IsNull(major.pkt.Value()))
    && (!IsNull(pi.pkt.Value()) ==> Untouched(mv, major.pkt.Value(), major.writtenFields, minorFields))
  }

  /** The merge of two packet objects whose values are known. */
  method ResolveValues(major: PacketInfo, minor: PacketInfo, parent: int, ghost mv: Wire, ghost nv: Wire,
                       ghost leaves: PacketMap, ghost now: map<int, Wire>) returns (pi: PacketInfo)
    requires major.pkt.Valid() && minor.pkt.Valid() && major.pkt.pkt != minor.pkt.pkt
    requires major.pkt.Value() == mv && minor.pkt.Value() == nv
    requires Stored(leaves) && now == Values(leaves)
    modifies major.pkt.pkt
    ensures fresh(pi.pkt) && pi.pkt.Valid() && (pi.pkt.pkt == major.pkt.pkt || fresh(pi.pkt.pkt))
    ensures AfterMerge(pi, major, mv, minor.writtenFields, leaves, now)
    ensures IsNull(pi.pkt.Value()) <==> IsNull(mv) || IsNull(nv)
    ensures !IsNull(pi.pkt.Value()) ==>
              Info(pi.pkt.Value(), pi.writtenFields) == Overlay(Info(mv, major.writtenFields), Info(nv, minor.writtenFields))
  {
    hide Decode, IsTcpOverIp, Untouched;
    OverlayKeepsNull(Info(mv, major.writtenFields), Info(nv, minor.writtenFields));
    assert forall k :: k in leaves ==> now[k] == leaves[k].Value();
    pi := ResolvePacketConflict(major, minor, parent);
  }

  lemma MergedEntry(pi: PacketInfo, major: PacketInfo, minor: PacketInfo, ms: Info<int>, ns: Info<int>,
                    leaves: PacketMap, start: map<int, Wire>, now: map<int, Wire>)
    requires AfterMerge(pi, major, Build(ms.fields, Lookup(start)), ns.written, leaves, now)
    requires pi.pkt.pkt == major.pkt.pkt || forall k :: k in leaves ==> leaves[k].pkt != pi.pkt.pkt
    requires forall k :: k in leaves && leaves[k].pkt == major.pkt.pkt ==> k == ms.fields.sip
    requires forall j, k :: j in leaves && k in leaves && j != k ==> leaves[j].pkt != leaves[k].pkt
    requires Providers(ms.fields) <= leaves.Keys && Providers(ns.fields) <= leaves.Keys
    requires major.writtenFields == ms.written && minor.writtenFields == ns.written
    requires !IsNull(pi.pkt.Value())
    requires Info(pi.pkt.Value(), pi.writtenFields) ==
             Overlay(BuildInfo(ms, Lookup(start)), BuildInfo(ns, Lookup(start)))
    ensures Stored(leaves) && Holds(pi, Overlay(ms, ns), leaves, start) && MergedInto(now, Values(leaves), ms, ns)
  {
    hide Decode, IsTcpOverIp, IsNull, Untouched, Overlay;
    OverlayNatural(ms, ns, Lookup(start));
    OverlayProviders(ms, ns);
    assert ms.fields.sip in leaves;
    UntouchedSame(now[ms.fields.sip], ms.written, ns.written);
  }

  lemma UntouchedSame(v: Wire, majorFields: set<Field>, minorFields: set<Field>)
    ensures Untouched(v, v, majorFields, minorFields)
  {
  }

  lemma DroppedEntry(pi: PacketInfo, major: PacketInfo, mv: Wire, minorFields: set<Field>, base: int, leaves: PacketMap,
                     now: map<int, Wire>)
    requires AfterMerge(pi, major, mv, minorFields, leaves, now) && IsNull(pi.pkt.Value())
    requires forall k :: k in leaves && leaves[k].pkt == major.pkt.pkt ==> k == base
    requires forall j, k :: j in leaves && k in leaves && j != k ==> leaves[j].pkt != leaves[k].pkt
    ensures Stored(leaves) && DroppedInto(now, Values(leaves), base)
  {
    hide Decode, IsTcpOverIp, IsNull;
  }

  /** Merges one stored packet's descendant into another's. */
  method ResolveEntry(major: PacketInfo, minor: PacketInfo, parent: int, ghost ms: Info<int>, ghost ns: Info<int>,
                      ghost leaves: PacketMap, ghost start: map<int, Wire>, ghost now: map<int, Wire>)
    returns (pi: PacketInfo)
    requires Stored(leaves) && now == Values(leaves)
    requires Holds(major, ms, leaves, start) && Holds(minor, ns, leaves, start)
    requires major.pkt.pkt != minor.pkt.pkt
    modifies major.pkt.pkt
    ensures fresh(pi.pkt) && pi.pkt.Valid() && Stored(leaves)
    ensures pi.pkt.pkt == major.pkt.pkt || fresh(pi.pkt.pkt)
    ensures IsNull(pi.pkt.Value()) <==> IsNull(Build(ms.fields, Lookup(start))) || IsNull(Build(ns.fields, Lookup(start)))
    ensures IsNull(pi.pkt.Value()) ==> DroppedInto(now, Values(leaves), ms.fields.sip)
    ensures !IsNull(pi.pkt.Value()) ==> Holds(pi, Overlay(ms, ns), leaves, start) && MergedInto(now, Values(leaves), ms, ns)
  {
    hide Decode, IsTcpOverIp, IsNull, Untouched, Overlay, AfterMerge, Build;
    ghost var mv, nv := Build(ms.fields, Lookup(start)), Build(ns.fields, Lookup(start));
    pi := ResolveValues(major, minor, parent, mv, nv, leaves, now);
    if IsNull(pi.pkt.Value()) {
      DroppedEntry(pi, major, mv, minor.writtenFields, ms.fields.sip, leaves, now);
    } else {
      MergedEntry(pi, major, minor, ms, ns, leaves, start, now);
    }
  }

  /** Merges live packet b into live packet a; the others stay live. */
  method ResolveLive(major: PacketInfo, minor: PacketInfo, parent: int, ghost live: LivePackets, ghost a: int, ghost b: int,
                     ghost sym: LiveMap<int>, ghost leaves: PacketMap, ghost start: map<int, Wire>)
    returns (pi: PacketInfo)
    requires Live(live, sym, leaves, start) && a in live && b in live && a != b
    requires live[a] == major && live[b] == minor
    modifies major.pkt.pkt
    ensures fresh(pi.pkt) && pi.pkt.Valid() && Stored(leaves)
    ensures pi.pkt.pkt == live[a].pkt.pkt || fresh(pi.pkt.pkt)
    ensures IsNull(pi.pkt.Value()) <==>
            IsNull(Build(sym[a].fields, Lookup(start))) || IsNull(Build(sym[b].fields, Lookup(start)))
    ensures IsNull(pi.pkt.Value()) ==> DroppedInto(old(Values(leaves)), Values(leaves), sym[a].fields.sip)
    ensures !IsNull(pi.pkt.Value()) ==> Entry(pi, Overlay(sym[a], sym[b]), leaves, start) && Base(leaves, start)
    ensures !IsNull(pi.pkt.Value()) ==>
              forall k :: k in live && k != a && k != b ==> Entry(live[k], sym[k], leaves, start)
    ensures forall k :: k in live && k != a && k != b ==>
              live[k].pkt.Valid() && Apart(pi, Overlay(sym[a], sym[b]), live[k], sym[k])
    ensures forall j, k :: j in live && k in live && j != k ==> Apart(live[j], sym[j], live[k], sym[k])
  {
    hide Decode, IsTcpOverIp, IsNull, Untouched, Overlay, Build, Intact, Lookup, MergedInto, DroppedInto, Providers;
    ghost var now := Values(leaves);
    BaseValues(leaves, start);
    assert Entry(live[a], sym[a], leaves, start) && Entry(live[b], sym[b], leaves, start);
    assert Apart(live[a], sym[a], live[b], sym[b]);
    pi := ResolveEntry(major, minor, parent, sym[a], sym[b], leaves, start, now);
    ghost var after := Values(leaves);
    OverlayProviders(sym[a], sym[b]);
    forall k | k in live && k != a && k != b
      ensures live[k].pkt.Valid() && Apart(pi, Overlay(sym[a], sym[b]), live[k], sym[k])
      ensures !IsNull(pi.pkt.Value()) ==> Entry(live[k], sym[k], leaves, start)
    {
      assert Apart(live[a], sym[a], live[k], sym[k]) && Apart(live[b], sym[b], live[k], sym[k]);
      assert old(Entry(live[k], sym[k], leaves, start));
      if !IsNull(pi.pkt.Value()) {
        OtherIntact(sym[k].fields, sym[a], sym[b], now, after, start);
      }
    }
    if !IsNull(pi.pkt.Value()) {
      BothIntact(sym[a], sym[b], now, after, start);
      MergedKeepsNull(now, after, sym[a], sym[b]);
      StillBase(leaves, start, now, after);
    }
  }

  lemma BaseValues(leaves: PacketMap, start: map<int, Wire>)
    requires Base(leaves, start)
    ensures Stored(leaves) && Values(leaves).Keys == start.Keys == leaves.Keys
    ensures forall k :: k in leaves ==> IsNull(Values(leaves)[k]) == IsNull(start[k])
  {
    hide IsNull;
  }

  lemma StillBase(leaves: PacketMap, start: map<int, Wire>, now: map<int, Wire>, after: map<int, Wire>)
    requires Stored(leaves) && after == Values(leaves) && now.Keys == start.Keys == leaves.Keys
    requires forall k :: k in leaves ==> IsNull(now[k]) == IsNull(start[k])
    requires forall k :: k in now ==> IsNull(after[k]) == IsNull(now[k])
    ensures Base(leaves, start)
  {
    hide IsNull;
    assert forall k :: k in leaves ==> after[k] == leaves[k].Value();
  }

  lemma OtherIntact(src: Fields<int>, major: Info<int>, minor: Info<int>, now: map<int, Wire>, after: map<int, Wire>,
                    start: map<int, Wire>)
    requires MergedInto(now, after, major, minor) && Intact(src, now, start) && Providers(major.fields) !! Providers(src)
    ensures Intact(src, after, start)
  {
    hide Intact, Untouched;
    assert major.fields.sip in Providers(major.fields);
    IntactFrame(src, now, after, start);
  }

  lemma BothIntact(major: Info<int>, minor: Info<int>, now: map<int, Wire>, after: map<int, Wire>, start: map<int, Wire>)
    requires MergedInto(now, after, major, minor) && Intact(major.fields, now, start) && Intact(minor.fields, now, start)
    requires Providers(major.fields) !! Providers(minor.fields)
    ensures Intact(Overlay(major, minor).fields, after, start)
  {
    hide Intact, Untouched, Overlay;
    assert major.fields.sip in Providers(major.fields);
    IntactMerge(major, minor, now, after, start);
  }

  lemma MergedKeepsNull(now: map<int, Wire>, after: map<int, Wire>, major: Info<int>, minor: Info<int>)
    requires MergedInto(now, after, major, minor)
    ensures now.Keys == after.Keys && forall k :: k in now ==> IsNull(after[k]) == IsNull(now[k])
  {
    forall k | k in now
      ensures IsNull(after[k]) == IsNull(now[k])
    {
      if k == major.fields.sip {
        assert now[k].Get(SIP) == after[k].Get(SIP) && now[k].Get(SPORT) == after[k].Get(SPORT);
      }
    }
  }

  lemma NullEntry(info: PacketInfo, src: Info<int>, leaves: PacketMap, start: map<int, Wire>)
    requires Base(leaves, start) && Entry(info, src, leaves, start)
    requires IsNull(Build(src.fields, Lookup(start)))
    ensures NullAt(start, src.fields.sip)
  {
    assert src.fields.sip in Providers(src.fields);
  }

  lemma DroppedIsDoomed(now: map<int, Wire>, after: map<int, Wire>, base: int, start: map<int, Wire>, k: int)
    requires DroppedInto(now, after, base) && now.Keys == start.Keys
    requires forall j :: j in now ==> IsNull(now[j]) == IsNull(start[j])
    requires NullAt(start, k)
    ensures NullAt(after, k)
  {
  }

  /** The live packets after one item has been collapsed. */
  function LiveAfter(live: LivePackets, ci: ConflictItem, pi: PacketInfo): LivePackets {
    var rest := live - {ci.major, ci.minor};
    if ci.parent in rest then rest else rest[ci.parent := pi]
  }

  lemma CollapseKeepsLive(live: LivePackets, sym: LiveMap<int>, ci: ConflictItem, pi: PacketInfo, writes: WriteTable,
                          leaves: PacketMap, start: map<int, Wire>)
    requires live.Keys == sym.Keys && Enabled(ci, sym) && Base(leaves, start)
    requires Entry(pi, Merged(ci, writes, sym), leaves, start)
    requires forall k :: k in live && k != ci.major && k != ci.minor ==>
               Entry(live[k], sym[k], leaves, start) && Apart(pi, Merged(ci, writes, sym), live[k], sym[k])
    requires forall j, k :: j in live && k in live && j != k ==> Apart(live[j], sym[j], live[k], sym[k])
    ensures Live(LiveAfter(live, ci, pi), Collapse(ci, writes, sym), leaves, start)
  {
    hide *;
    var l, c := LiveAfter(live, ci, pi), Collapse(ci, writes, sym);
    BaseIsStored(leaves, start);
    SameKeysAfter(live, sym, ci, pi, writes);
    forall k | k in l
      ensures Entry(l[k], c[k], leaves, start)
    {
      MemberAfter(live, sym, ci, pi, writes, k);
    }
    forall j, k | j in l && k in l && j != k
      ensures Apart(l[j], c[j], l[k], c[k])
    {
      MemberAfter(live, sym, ci, pi, writes, j);
      MemberAfter(live, sym, ci, pi, writes, k);
      ApartBothWays(l[j], c[j], l[k], c[k]);
    }
    IsLive(l, c, leaves, start);
  }

  lemma BaseIsStored(leaves: PacketMap, start: map<int, Wire>)
    requires Base(leaves, start)
    ensures Stored(leaves)
  {
  }

  lemma IsLive(l: LivePackets, c: LiveMap<int>, leaves: PacketMap, start: map<int, Wire>)
    requires Base(leaves, start) && l.Keys == c.Keys
    requires forall k :: k in l ==> Entry(l[k], c[k], leaves, start)
    requires forall j, k :: j in l && k in l && j != k ==> Apart(l[j], c[j], l[k], c[k])
    ensures Live(l, c, leaves, start)
  {
    hide Base, Entry, Apart;
  }

  lemma SameKeysAfter(live: LivePackets, sym: LiveMap<int>, ci: ConflictItem, pi: PacketInfo, writes: WriteTable)
    requires live.Keys == sym.Keys && Enabled(ci, sym)
    ensures LiveAfter(live, ci, pi).Keys == Collapse(ci, writes, sym).Keys
  {
    hide Merged;
  }

  /** Each live packet after the collapse is the merge, at the parent, or one
      of the others as it was. */
  lemma MemberAfter(live: LivePackets, sym: LiveMap<int>, ci: ConflictItem, pi: PacketInfo, writes: WriteTable, k: int)
    requires live.Keys == sym.Keys && Enabled(ci, sym) && k in LiveAfter(live, ci, pi)
    ensures var l, c := LiveAfter(live, ci, pi), Collapse(ci, writes, sym);
      k in c && ((k == ci.parent && l[k] == pi && c[k] == Merged(ci, writes, sym))
                 || (k in live && k != ci.major && k != ci.minor && l[k] == live[k] && c[k] == sym[k]))
  {
    hide Merged;
  }

  lemma ApartBothWays(x: PacketInfo, xs: Info<int>, y: PacketInfo, ys: Info<int>)
    ensures Apart(x, xs, y, ys) <==> Apart(y, ys, x, xs)
  {
  }

  /** The packets received for one id can be merged: there are some, and they come from known nodes. */
  predicate Known(leaves: PacketMap, nodes: map<int, NF>) {
    leaves != map[] && forall k :: k in leaves ==> k in nodes
  }

  lemma PassOne<T>(items: seq<ConflictItem>, i: nat, writes: WriteTable, m: LiveMap<T>)
    requires i < |items| && Irreflexive(items)
    ensures items[i].major != items[i].minor
    ensures items[i].major in m && items[i].minor in m ==>
              Enabled(items[i], m) && |Collapse(items[i], writes, m)| < |m|
              && Pass(items[i..], writes, m) == Pass(items[i + 1..], writes, Collapse(items[i], writes, m))
    ensures !(items[i].major in m && items[i].minor in m) ==> Pass(items[i..], writes, m) == Pass(items[i + 1..], writes, m)
  {
    hide Collapse;
    assert items[i].major != items[i].minor;
    var rest := items[i..];
    assert rest[0] == items[i] && rest[1..] == items[i + 1..];
    assert Pass(rest, writes, m) == Pass(items[i + 1..], writes, Step(items[i], writes, m));
  }

  lemma LoopUnrolled<T>(items: seq<ConflictItem>, writes: WriteTable, m: LiveMap<T>)
    requires Irreflexive(items)
    ensures var next := Pass(items, writes, m);
      Loop(items, writes, m) == if |next| < |m| then Loop(items, writes, next) else next
  {
  }

  lemma PassNone<T>(items: seq<ConflictItem>, writes: WriteTable, m: LiveMap<T>)
    ensures Pass(items[|items|..], writes, m) == m
  {
    assert items[|items|..] == [];
  }

  /** What merging the stored packets gives, by the functions of MergeSpec. */
  ghost function StoredOutcome(leaves: PacketMap, items: seq<ConflictItem>, nodes: map<int, NF>): Outcome
    requires Stored(leaves) && Known(leaves, nodes) && Irreflexive(items)
    reads Objects(leaves), Buffers(leaves)
  {
    ValuesKnown(leaves);
    OutcomeByOrigin(items, Values(leaves), nodes, WritesOfNodes(nodes));
    MergeOutcome(items, WritesOfNodes(nodes), LeafInfos(Values(leaves), nodes))
  }

  lemma ValuesKnown(leaves: PacketMap)
    requires Stored(leaves) && leaves != map[]
    ensures Values(leaves).Keys == leaves.Keys && Values(leaves) != map[]
  {
    var k := Pick(leaves.Keys);
    assert k in Values(leaves);
  }

  lemma StartLive(live: LivePackets, leaves: PacketMap, start: map<int, Wire>, nodes: map<int, NF>)
    requires Stored(leaves) && start == Values(leaves)
    requires live.Keys == leaves.Keys
    requires forall k :: k in leaves ==> k in nodes && live[k] == PacketInfo(k, leaves[k], WriteFields(nodes[k]))
    ensures Live(live, Origin(LeafInfos(start, nodes)), leaves, start)
  {
    hide Decode, IsTcpOverIp, IsNull, WriteFields;
    hide Entry, Apart, Base;
    var sym := Origin(LeafInfos(start, nodes));
    assert forall k :: k in sym <==> k in live;
    assert sym.Keys == live.Keys;
    assert Base(leaves, start) by { StartBase(leaves, start); }
    forall k | k in live
      ensures Entry(live[k], sym[k], leaves, start)
    {
      StartEntry(live, leaves, start, nodes, k);
    }
    forall j, k | j in live && k in live && j != k
      ensures Apart(live[j], sym[j], live[k], sym[k])
    {
      StartApart(live, leaves, start, nodes, j, k);
    }
  }

  lemma StartBase(leaves: PacketMap, start: map<int, Wire>)
    requires Stored(leaves) && start == Values(leaves)
    ensures Base(leaves, start)
  {
    hide Decode, IsTcpOverIp, IsNull;
  }

  lemma StartEntry(live: LivePackets, leaves: PacketMap, start: map<int, Wire>, nodes: map<int, NF>, k: int)
    requires Stored(leaves) && start == Values(leaves) && k in leaves && k in nodes && k in live
    requires live[k] == PacketInfo(k, leaves[k], WriteFields(nodes[k]))
    requires forall j :: j in leaves ==> j in nodes
    ensures k in Origin(LeafInfos(start, nodes))
    ensures Entry(live[k], Origin(LeafInfos(start, nodes))[k], leaves, start)
  {
    hide Decode, IsTcpOverIp, IsNull, WriteFields;
    assert Origin(LeafInfos(start, nodes))[k].fields == Everywhere(k);
  }

  lemma StartApart(live: LivePackets, leaves: PacketMap, start: map<int, Wire>, nodes: map<int, NF>, j: int, k: int)
    requires Stored(leaves) && start == Values(leaves) && j in leaves && k in leaves && j in live && k in live && j != k
    requires live[j].pkt == leaves[j] && live[k].pkt == leaves[k]
    requires forall i :: i in leaves ==> i in nodes
    ensures j in Origin(LeafInfos(start, nodes)) && k in Origin(LeafInfos(start, nodes))
    ensures Apart(live[j], Origin(LeafInfos(start, nodes))[j], live[k], Origin(LeafInfos(start, nodes))[k])
  {
    hide Decode, IsTcpOverIp, IsNull, WriteFields;
    var sym := Origin(LeafInfos(start, nodes));
    assert sym[j].fields == Everywhere(j) && sym[k].fields == Everywhere(k);
  }

  /** When some stored packet was and is null, the outcome was and is a drop. */
  lemma DoomedOutcome(leaves: PacketMap, start: map<int, Wire>, items: seq<ConflictItem>, nodes: map<int, NF>)
    requires Doomed(leaves, start) && Irreflexive(items)
    ensures leaves != map[] && start != map[] && Stored(leaves)
    ensures Known(leaves, nodes) ==>
              && LeafInfos(start, nodes) != map[]
              && MergeOutcome(items, WritesOfNodes(nodes), LeafInfos(start, nodes)) == Dropped
              && StoredOutcome(leaves, items, nodes) == Dropped
  {
    hide Decode, IsTcpOverIp, IsNull;
    var k :| NullAt(start, k);
    assert k in start && k in leaves;
    if Known(leaves, nodes) {
      OutcomeByOrigin(items, start, nodes, WritesOfNodes(nodes));
      ValuesKnown(leaves);
      OutcomeByOrigin(items, Values(leaves), nodes, WritesOfNodes(nodes));
      assert NullAt(Values(leaves), k);
    }
  }

  /** When none is null, the outcome is the merge by provenance, and it is still the same. */
  lemma MergedOutcome(merged: PacketInfo, leaves: PacketMap, start: map<int, Wire>, items: seq<ConflictItem>, nodes: map<int, NF>)
    requires Base(leaves, start) && Known(leaves, nodes) && Irreflexive(items)
    requires Origin(LeafInfos(start, nodes)) != map[]
    requires Entry(merged, MergeAll(items, WritesOfNodes(nodes), Origin(LeafInfos(start, nodes))), leaves, start)
    requires !IsNull(merged.pkt.Value()) && forall k :: !NullAt(start, k)
    ensures LeafInfos(start, nodes) != map[] && Stored(leaves)
    ensures MergeOutcome(items, WritesOfNodes(nodes), LeafInfos(start, nodes)) == Delivered(merged.pkt.Value())
    ensures StoredOutcome(leaves, items, nodes) == Delivered(merged.pkt.Value())
  {
    hide Decode, IsTcpOverIp, IsNull, MergeAll, MergeOutcome;
    ValuesKnown(leaves);
    var now := Values(leaves);
    assert start != map[] by {
      var k := Pick(leaves.Keys);
      assert k in start;
    }
    OutcomeByOrigin(items, start, nodes, WritesOfNodes(nodes));
    OutcomeByOrigin(items, now, nodes, WritesOfNodes(nodes));
    assert Origin(LeafInfos(now, nodes)) == Origin(LeafInfos(start, nodes));
    forall k
      ensures !NullAt(now, k)
    {
      assert !NullAt(start, k);
      assert k in now ==> IsNull(now[k]) == IsNull(start[k]);
    }
  }

  /** What the fold's packet is of the stored packets, as they were and as they are. */
  lemma FoldedOutcome(merged: PacketInfo, sym: LiveMap<int>, leaves: PacketMap, start: map<int, Wire>,
                      items: seq<ConflictItem>, nodes: map<int, NF>)
    requires Irreflexive(items) && Known(leaves, nodes) && start.Keys == leaves.Keys && merged.pkt.Valid()
    requires sym != map[] && Origin(LeafInfos(start, nodes)) != map[]
    requires sym == Loop(items, WritesOfNodes(nodes), Origin(LeafInfos(start, nodes)))
    requires AnyNull(BuildMap(sym, Lookup(start))) <==> AnyNull(BuildMap(Origin(LeafInfos(start, nodes)), Lookup(start)))
    requires IsNull(merged.pkt.Value()) ==> Doomed(leaves, start)
    requires !IsNull(merged.pkt.Value()) ==> Base(leaves, start) && Entry(merged, FoldAll(sym), leaves, start)
    requires !IsNull(merged.pkt.Value()) ==> !AnyNull(BuildMap(sym, Lookup(start)))
    ensures Stored(leaves) && LeafInfos(start, nodes) != map[]
    ensures OutcomeOf(merged.pkt.Value()) == MergeOutcome(items, WritesOfNodes(nodes), LeafInfos(start, nodes))
    ensures StoredOutcome(leaves, items, nodes) == OutcomeOf(merged.pkt.Value())
  {
    hide Decode, IsTcpOverIp, IsNull, Entry, Base, BuildMap, AnyNull, Doomed, Loop, FoldAll, LeafInfos, Origin, StoredOutcome, MergeOutcome, NullAt, Lookup;
    if IsNull(merged.pkt.Value()) {
      DoomedOutcome(leaves, start, items, nodes);
    } else {
      NoNullAtStart(start, nodes);
      MergedOutcome(merged, leaves, start, items, nodes);
    }
  }

  lemma OutcomeAtStart(leaves: PacketMap, items: seq<ConflictItem>, nodes: map<int, NF>) returns (start: map<int, Wire>,
                       outcome: Outcome)
    requires Stored(leaves) && Irreflexive(items)
    ensures start == Values(leaves) && start.Keys == leaves.Keys
    ensures Known(leaves, nodes) ==>
              && LeafInfos(start, nodes) != map[]
              && outcome == StoredOutcome(leaves, items, nodes) == MergeOutcome(items, WritesOfNodes(nodes), LeafInfos(start, nodes))
  {
    hide Decode, IsTcpOverIp, MergeOutcome;
    start, outcome := Values(leaves), Dropped;
    if Known(leaves, nodes) {
      outcome := StoredOutcome(leaves, items, nodes);
      ValuesKnown(leaves);
      OutcomeByOrigin(items, start, nodes, WritesOfNodes(nodes));
    }
  }

  lemma LoopEmpty(items: seq<ConflictItem>, writes: WriteTable, sym0: LiveMap<int>, sym: LiveMap<int>, leaves: PacketMap,
                  start: map<int, Wire>, nodes: map<int, NF>, live: LivePackets)
    requires Irreflexive(items) && Live(live, sym, leaves, start) && sym == Loop(items, writes, sym0)
    requires start.Keys == leaves.Keys && forall k :: k in leaves ==> k in nodes
    requires sym0 == Origin(LeafInfos(start, nodes))
    ensures live == map[] <==> leaves == map[]
    ensures leaves == map[] <==> sym0 == map[]
    ensures Stored(leaves)
  {
    hide Decode, IsTcpOverIp, IsNull, Entry, Loop;
    LoopIsFixpoint(items, writes, sym0);
    if leaves != map[] {
      var k := Pick(leaves.Keys);
      assert k in sym0;
    }
  }

  /** No live packet of the start is null exactly when no leaf was. */
  lemma NoNullAtStart(start: map<int, Wire>, nodes: map<int, NF>)
    requires forall k :: k in start ==> k in nodes
    requires !AnyNull(BuildMap(Origin(LeafInfos(start, nodes)), Lookup(start)))
    ensures forall k :: !NullAt(start, k)
  {
    hide IsNull, AnyNull;
    forall k
      ensures !NullAt(start, k)
    {
      if NullAt(start, k) {
        NullShows(start, nodes, k);
      }
    }
  }

  lemma NullShows(start: map<int, Wire>, nodes: map<int, NF>, k: int)
    requires NullAt(start, k) && k in nodes
    ensures AnyNull(BuildMap(Origin(LeafInfos(start, nodes)), Lookup(start)))
  {
    BuildOrigin(start, nodes);
    assert k in LeafInfos(start, nodes);
  }

  class MergerOperator {
    const conflicts: seq<ConflictItem>
    const nodes: map<int, NF>
    const actionTable: ActionTable
    var packetMap: map<int, PacketMap>

    /** A merger for the given service graph, with no packets received. */
    constructor (conflicts: seq<ConflictItem>, nodes: map<int, NF>)
      ensures this.conflicts == conflicts && this.nodes == nodes && packetMap == map[]
      ensures fresh(actionTable) && actionTable.Valid()
    {
      this.conflicts := conflicts;
      this.nodes := nodes;
      this.packetMap := map[];
      this.actionTable := new ActionTable();
    }

    function Writes(): WriteTable {
      WritesOfNodes(nodes)
    }

    /** The process gives up on a packet from a node it does not know. */
    method PacketToPacketInfo(pkt: Packet, nodeId: int) returns (r: Option<PacketInfo>)
      requires actionTable.Valid()
      ensures r == if nodeId in nodes then Some(PacketInfo(nodeId, pkt, WriteFields(nodes[nodeId]))) else None
    {
      if nodeId !in nodes {
        return None;
      }
      var fields := actionTable.GetWriteFields(nodes[nodeId]);
      r := Some(PacketInfo(nodeId, pkt, fields));
    }

    method PacketMapToPacketInfoMap(leaves: PacketMap) returns (r: Option<LivePackets>)
      requires actionTable.Valid()
      ensures r.Some? <==> forall k :: k in leaves ==> k in nodes
      ensures r.Some? ==> r.value.Keys == leaves.Keys
      ensures r.Some? ==> forall k :: k in leaves ==> k in nodes && r.value[k] == PacketInfo(k, leaves[k], WriteFields(nodes[k]))
    {
      var live: LivePackets := map[];
      var todo := leaves.Keys;
      while todo != {}
        invariant todo <= leaves.Keys && live.Keys == leaves.Keys - todo
        invariant forall k :: k in live ==> k in nodes && live[k] == PacketInfo(k, leaves[k], WriteFields(nodes[k]))
        decreases todo
      {
        var k := Min(todo);
        var info := PacketToPacketInfo(leaves[k], k);
        if info.None? {
          assert k in leaves && k !in nodes;
          return None;
        }
        live := live[k := info.value];
        todo := todo - {k};
      }
      r := Some(live);
    }

    /** Merges the packets stored for an id. The process gives up if there are
        none or one comes from an unknown node; otherwise the packet returned
        is the merge of the stored packets as they were, although buffers are
        overwritten on the way. And merging the stored packets once more, as
        they are now, would give the same result again. */
    method MergePacket(pktId: int) returns (r: Option<Packet>)
      requires actionTable.Valid() && Irreflexive(conflicts)
      requires pktId in packetMap ==> Stored(packetMap[pktId])
      modifies if pktId in packetMap then Buffers(packetMap[pktId]) else {}
      ensures r.Some? <==> pktId in packetMap && Known(packetMap[pktId], nodes)
      ensures r.Some? ==> r.value.Valid() && Stored(packetMap[pktId])
      ensures r.Some? ==> OutcomeOf(r.value.Value()) == old(StoredOutcome(packetMap[pktId], conflicts, nodes))
      ensures r.Some? ==>
                StoredOutcome(packetMap[pktId], conflicts, nodes) == old(StoredOutcome(packetMap[pktId], conflicts, nodes))
    {
      hide Decode, IsTcpOverIp, IsNull, Live, LeafInfos, Origin, StoredOutcome, MergeOutcome, WritesOfNodes, OutcomeOf;
      if pktId !in packetMap {
        return None;
      }
      var leaves := packetMap[pktId];
      ghost var start, expected := OutcomeAtStart(leaves, conflicts, nodes);
      var infos := PacketMapToPacketInfoMap(leaves);
      if infos.None? {
        return None;
      }
      StartLive(infos.value, leaves, start, nodes);
      r := MergeInfos(infos.value, leaves, start);
    }

    /** The merge of the packets, each known to come from a known node. */
    method MergeInfos(infos: LivePackets, ghost leaves: PacketMap, ghost start: map<int, Wire>) returns (r: Option<Packet>)
      requires actionTable.Valid() && Irreflexive(conflicts)
      requires start.Keys == leaves.Keys && forall k :: k in leaves ==> k in nodes
      requires Live(infos, Origin(LeafInfos(start, nodes)), leaves, start)
      modifies LiveBuffers(infos)
      ensures r.Some? <==> leaves != map[]
      ensures r.Some? ==> r.value.Valid() && Stored(leaves) && Known(leaves, nodes) && LeafInfos(start, nodes) != map[]
      ensures r.Some? ==> OutcomeOf(r.value.Value()) == MergeOutcome(conflicts, Writes(), LeafInfos(start, nodes))
      ensures r.Some? ==> StoredOutcome(leaves, conflicts, nodes) == MergeOutcome(conflicts, Writes(), LeafInfos(start, nodes))
    {
      hide Decode, IsTcpOverIp, IsNull, Build, Live, Entry, Base, BuildMap, AnyNull, Doomed, Loop, FoldAll, LeafInfos, Origin, StoredOutcome, MergeOutcome, NullAt, Lookup, WritesOfNodes, Stored;
      ghost var sym0 := Origin(LeafInfos(start, nodes));
      var live, dropped;
      ghost var sym;
      live, dropped, sym := CollapseConflicts(infos, sym0, leaves, start);
      if dropped.Some? {
        DoomedOutcome(leaves, start, conflicts, nodes);
        return dropped;
      }
      LoopEmpty(conflicts, Writes(), sym0, sym, leaves, start, nodes, live);
      if live == map[] {
        return None;
      }
      var merged := FoldPackets(live, sym, leaves, start);
      FoldedOutcome(merged, sym, leaves, start, conflicts, nodes);
      r := Some(merged.pkt);
    }

    /** The rewriting loop. Either some pair collapsed to a null packet, which
        is returned at once, or no conflict is left. */
    method CollapseConflicts(live0: LivePackets, ghost sym0: LiveMap<int>, ghost leaves: PacketMap, ghost start: map<int, Wire>)
      returns (live: LivePackets, dropped: Option<Packet>, ghost sym: LiveMap<int>)
      requires actionTable.Valid() && Irreflexive(conflicts)
      requires Live(live0, sym0, leaves, start)
      modifies LiveBuffers(live0)
      ensures dropped.Some? ==> dropped.value.Valid() && IsNull(dropped.value.Value()) && Doomed(leaves, start)
      ensures dropped.Some? ==> dropped.value.pkt in old(LiveBuffers(live0)) || fresh(dropped.value.pkt)
      ensures dropped.None? ==> Live(live, sym, leaves, start) && sym == Loop(conflicts, Writes(), sym0)
      ensures dropped.None? ==> forall k :: k in live ==> live[k].pkt.pkt in old(LiveBuffers(live0)) || fresh(live[k].pkt.pkt)
      ensures dropped.None? ==> (AnyNull(BuildMap(sym, Lookup(start))) <==> AnyNull(BuildMap(sym0, Lookup(start))))
    {
      hide Decode, IsTcpOverIp, IsNull, Overlay, Build, Live, Doomed, BuildMap, AnyNull, WritesOfNodes, Loop, Pass, Irreflexive, MergerOperator.Writes;
      live, sym, dropped := live0, sym0, None;
      var wasChanged := true;
      while wasChanged
        invariant actionTable.Valid()
        invariant Live(live, sym, leaves, start)
        invariant forall k :: k in live ==> live[k].pkt.pkt in old(LiveBuffers(live0)) || fresh(live[k].pkt.pkt)
        invariant AnyNull(BuildMap(sym, Lookup(start))) <==> AnyNull(BuildMap(sym0, Lookup(start)))
        invariant wasChanged ==> Loop(conflicts, Writes(), sym) == Loop(conflicts, Writes(), sym0)
        invariant !wasChanged ==> sym == Loop(conflicts, Writes(), sym0)
        decreases |sym|, wasChanged
      {
        ghost var next;
        LoopUnrolled(conflicts, Writes(), sym);
        live, dropped, wasChanged, next := CollapsePass(live, sym, leaves, start);
        if dropped.Some? {
          return;
        }
        sym := next;
      }
      dropped := None;
    }

    /** One pass over the conflict list; wasChanged tells whether anything was collapsed. */
    method CollapsePass(live0: LivePackets, ghost sym0: LiveMap<int>, ghost leaves: PacketMap, ghost start: map<int, Wire>)
      returns (live: LivePackets, dropped: Option<Packet>, wasChanged: bool, ghost sym: LiveMap<int>)
      requires actionTable.Valid() && Irreflexive(conflicts)
      requires Live(live0, sym0, leaves, start)
      modifies LiveBuffers(live0)
      ensures dropped.Some? ==> dropped.value.Valid() && IsNull(dropped.value.Value()) && Doomed(leaves, start)
      ensures dropped.Some? ==> dropped.value.pkt in old(LiveBuffers(live0)) || fresh(dropped.value.pkt)
      ensures dropped.None? ==> Live(live, sym, leaves, start) && sym == Pass(conflicts, Writes(), sym0)
      ensures dropped.None? ==> |sym| <= |sym0| && (wasChanged <==> |sym| < |sym0|)
      ensures dropped.None? ==> forall k :: k in live ==> live[k].pkt.pkt in old(LiveBuffers(live0)) || fresh(live[k].pkt.pkt)
      ensures dropped.None? ==> (AnyNull(BuildMap(sym, Lookup(start))) <==> AnyNull(BuildMap(sym0, Lookup(start))))
    {
      hide *;
      assert forall k :: k in live0 ==> live0[k].pkt.pkt in LiveBuffers(live0) by { BuffersIn(live0); }
      live, sym, dropped, wasChanged := live0, sym0, None, false;
      assert conflicts[0..] == conflicts;
      for i := 0 to |conflicts|
        invariant actionTable.Valid()
        invariant Live(live, sym, leaves, start)
        invariant forall k :: k in live ==> live[k].pkt.pkt in old(LiveBuffers(live0)) || fresh(live[k].pkt.pkt)
        invariant AnyNull(BuildMap(sym, Lookup(start))) <==> AnyNull(BuildMap(sym0, Lookup(start)))
        invariant Pass(conflicts[i..], Writes(), sym) == Pass(conflicts, Writes(), sym0)
        invariant |sym| <= |sym0| && (wasChanged <==> |sym| < |sym0|)
      {
        var ci := conflicts[i];
        LiveKeys(live, sym, leaves, start);
        PassOne(conflicts, i, Writes(), sym);
        if ci.major in live && ci.minor in live {
          ghost var next;
          live, dropped, next := CollapseOne(ci, live, sym, leaves, start);
          if dropped.Some? {
            return;
          }
          sym := next;
          wasChanged := true;
        }
      }
      PassNone(conflicts, Writes(), sym);
      dropped := None;
    }

    /** Merges the packets that are left, in ascending order of node id. */
    method FoldPackets(live: LivePackets, ghost sym: LiveMap<int>, ghost leaves: PacketMap,
                       ghost start: map<int, Wire>) returns (merged: PacketInfo)
      requires Live(live, sym, leaves, start) && live != map[]
      modifies LiveBuffers(live)
      ensures merged.pkt.Valid() && sym != map[]
      ensures IsNull(merged.pkt.Value()) ==> Doomed(leaves, start)
      ensures !IsNull(merged.pkt.Value()) ==> Base(leaves, start) && Entry(merged, FoldAll(sym), leaves, start)
      ensures !IsNull(merged.pkt.Value()) ==> !AnyNull(BuildMap(sym, Lookup(start)))
    {
      hide *;
      BuffersIn(live);
      StartFold(live, sym, leaves, start);
      var first := Min(live.Keys);
      ViewMembers(live, sym, live, sym, first, live.Keys - {first});
      merged := live[first];
      var rest := live.Keys - {first};
      ghost var view, vsym := live, sym;
      while rest != {}
        invariant first in view && view[first] == merged && first in vsym && rest <= sym.Keys
        invariant FoldView(view, vsym, live, sym, first, rest)
        invariant Live(view, vsym, leaves, start)
        invariant Fold(vsym[first], rest, sym) == FoldAll(sym)
        invariant AnyNull(BuildMap(vsym, Lookup(start))) <==> AnyNull(BuildMap(sym, Lookup(start)))
        invariant merged.pkt.pkt in old(LiveBuffers(live)) || fresh(merged.pkt.pkt)
        decreases rest
      {
        var k := Min(rest);
        ViewMembers(view, vsym, live, sym, first, rest);
        ghost var now, nullLeaf := NullSource(view, vsym, first, k, leaves, start);
        ghost var restBefore := rest;
        ViewHas(view, vsym, live, sym, first, k, rest);
        merged := ResolveLive(merged, live[k], -1, view, first, k, vsym, leaves, start);
        rest := rest - {k};
        if merged.pkt.CheckNull() {
          NowDoomed(leaves, start, now, vsym[first].fields.sip, nullLeaf);
          forall j | j in rest
            ensures live[j].pkt.Valid() && live[j].pkt.pkt != merged.pkt.pkt
          {
            assert j in view && j != first && j != k && view[j] == live[j];
            ApartBuffers(merged, Overlay(vsym[first], vsym[k]), view[j], vsym[j]);
          }
          merged := FoldOntoNull(merged, rest, live, leaves, start);
          return;
        }
        FoldStep(view, vsym, live, sym, first, k, restBefore, merged, leaves, start);
        view := LiveAfter(view, ConflictItem(first, k, first), merged);
        vsym := Collapse(ConflictItem(first, k, first), map[], vsym);
      }
      ViewMembers(view, vsym, live, sym, first, rest);
      FoldDone(vsym[first], sym);
      EndFold(view, vsym, sym, first, leaves, start);
    }

    /** Once the packet is null the fold goes on, and it stays null. */
    method FoldOntoNull(merged0: PacketInfo, rest0: set<int>, live: LivePackets, ghost leaves: PacketMap,
                        ghost start: map<int, Wire>) returns (merged: PacketInfo)
      requires merged0.pkt.Valid() && IsNull(merged0.pkt.Value()) && Doomed(leaves, start)
      requires rest0 <= live.Keys
      requires forall k :: k in rest0 ==> live[k].pkt.Valid() && live[k].pkt.pkt != merged0.pkt.pkt
      modifies merged0.pkt.pkt
      ensures merged.pkt.Valid() && IsNull(merged.pkt.Value()) && Doomed(leaves, start)
    {
      hide Decode, IsTcpOverIp, IsNull, Overlay;
      merged := merged0;
      var rest := rest0;
      while rest != {}
        invariant rest <= rest0
        invariant merged.pkt.Valid() && IsNull(merged.pkt.Value()) && Doomed(leaves, start)
        invariant merged.pkt.pkt == merged0.pkt.pkt
        invariant forall k :: k in rest0 ==> live[k].pkt.Valid() && live[k].pkt.pkt != merged0.pkt.pkt
        decreases rest
      {
        var k := Min(rest);
        ghost var now, buffer := Values(leaves), merged.pkt.pkt;
        merged := ResolvePacketConflict(merged, live[k], -1);
        StillDoomed(leaves, start, now, buffer);
        rest := rest - {k};
      }
    }

    /** Collapses one pair of live packets. */
    method CollapseOne(ci: ConflictItem, live: LivePackets, ghost sym: LiveMap<int>, ghost leaves: PacketMap,
                       ghost start: map<int, Wire>)
      returns (live': LivePackets, dropped: Option<Packet>, ghost sym': LiveMap<int>)
      requires actionTable.Valid() && ci.major != ci.minor
      requires Live(live, sym, leaves, start) && ci.major in live && ci.minor in live
      modifies live[ci.major].pkt.pkt
      ensures dropped.Some? ==> dropped.value.Valid() && IsNull(dropped.value.Value()) && Doomed(leaves, start)
      ensures dropped.Some? ==> dropped.value.pkt == live[ci.major].pkt.pkt || fresh(dropped.value.pkt)
      ensures dropped.None? ==> Enabled(ci, sym) && sym' == Collapse(ci, Writes(), sym) && Live(live', sym', leaves, start)
      ensures dropped.None? ==> forall k :: k in live' ==>
                (k in live && live'[k] == live[k]) || live'[k].pkt.pkt == live[ci.major].pkt.pkt || fresh(live'[k].pkt.pkt)
      ensures dropped.None? ==> (AnyNull(BuildMap(sym', Lookup(start))) <==> AnyNull(BuildMap(sym, Lookup(start))))
    {
      hide Decode, IsTcpOverIp, IsNull, Overlay, Build, Live, Base, Entry, Apart, BuildMap, Collapse, AnyNull, WriteFields, LiveAfter, Doomed;
      ghost var now, nullLeaf := NullSource(live, sym, ci.major, ci.minor, leaves, start);
      var pi := ResolveLive(live[ci.major], live[ci.minor], ci.parent, live, ci.major, ci.minor, sym, leaves, start);
      if pi.pkt.CheckNull() {
        NowDoomed(leaves, start, now, sym[ci.major].fields.sip, nullLeaf);
        dropped, live', sym' := Some(pi.pkt), live, sym;
      } else {
        StepAnyNull(ci, Writes(), sym, start);
        ghost var merged := pi;
        if ci.parent in nodes {
          var fields := actionTable.GetWriteFields(nodes[ci.parent]);
          pi := pi.(writtenFields := pi.writtenFields + fields);
        }
        AddWrites(merged, pi, live, sym, ci, nodes, leaves, start);
        CollapseKeepsLive(live, sym, ci, pi, Writes(), leaves, start);
        LiveAfterEntries(live, ci, pi);
        dropped, live', sym' := None, LiveAfter(live, ci, pi), Collapse(ci, Writes(), sym);
      }
    }
  }

  /** How far the fold has come: the accumulated packet stands at the first
      node, the nodes in rest are untouched, and there are no others. */
  ghost predicate FoldView(view: LivePackets, vsym: LiveMap<int>, live: LivePackets, sym: LiveMap<int>, first: int,
                           rest: set<int>) {
    first !in rest && rest <= live.Keys && rest <= sym.Keys
    && (forall j :: j in view <==> j in rest || j == first)
    && (forall j :: j in vsym <==> j in rest || j == first)
    && (forall j :: j in rest ==> view[j] == live[j] && vsym[j] == sym[j])
  }

  /** Nullifying a buffer once more leaves the stored packets doomed. */
  lemma StillDoomed(leaves: PacketMap, start: map<int, Wire>, now: map<int, Wire>, buffer: array<byte>)
    requires start.Keys == leaves.Keys == now.Keys && exists k :: NullAt(start, k)
    requires forall k :: NullAt(start, k) ==> NullAt(now, k)
    requires forall j, k :: j in leaves && k in leaves && j != k ==> leaves[j].pkt != leaves[k].pkt
    requires forall k :: k in leaves && leaves[k].pkt != buffer ==> leaves[k].Valid() && leaves[k].Value() == now[k]
    requires IsTcpOverIp(buffer[..]) && IsNull(Decode(buffer[..]))
    ensures Doomed(leaves, start)
  {
    hide IsNull;
  }

  lemma StartFold(live: LivePackets, sym: LiveMap<int>, leaves: PacketMap, start: map<int, Wire>)
    requires Live(live, sym, leaves, start) && live != map[]
    ensures live.Keys != {} && sym.Keys == live.Keys && sym != map[]
    ensures FoldView(live, sym, live, sym, Min(live.Keys), live.Keys - {Min(live.Keys)})
    ensures Fold(sym[Min(live.Keys)], live.Keys - {Min(live.Keys)}, sym) == FoldAll(sym)
  {
    hide Decode, IsTcpOverIp, IsNull, Overlay, Build, Entry, Apart;
    assert live.Keys != {};
    var first := Min(live.Keys);
    assert live.Keys == (live.Keys - {first}) + {first};
  }

  lemma FoldStep(view: LivePackets, vsym: LiveMap<int>, live: LivePackets, sym: LiveMap<int>, first: int, k: int, rest: set<int>,
                 merged: PacketInfo, leaves: PacketMap, start: map<int, Wire>)
    requires FoldView(view, vsym, live, sym, first, rest) && rest != {} && k == Min(rest)
    requires view.Keys == vsym.Keys
    requires Base(leaves, start) && Entry(merged, Overlay(vsym[first], vsym[k]), leaves, start)
    requires forall j :: j in view && j != first && j != k ==>
               Entry(view[j], vsym[j], leaves, start) && Apart(merged, Overlay(vsym[first], vsym[k]), view[j], vsym[j])
    requires forall i, j :: i in view && j in view && i != j ==> Apart(view[i], vsym[i], view[j], vsym[j])
    requires !IsNull(Build(vsym[first].fields, Lookup(start))) && !IsNull(Build(vsym[k].fields, Lookup(start)))
    ensures var ci := ConflictItem(first, k, first);
            var view', vsym' := LiveAfter(view, ci, merged), Collapse(ci, map[], vsym);
            && first in view' && view'[first] == merged && first in vsym'
            && FoldView(view', vsym', live, sym, first, rest - {k})
            && Live(view', vsym', leaves, start)
            && Fold(vsym'[first], rest - {k}, sym) == Fold(vsym[first], rest, sym)
            && (AnyNull(BuildMap(vsym', Lookup(start))) <==> AnyNull(BuildMap(vsym, Lookup(start))))
  {
    hide Decode, IsTcpOverIp, IsNull, Overlay, Build, Entry, Apart, Live, AnyNull, BuildMap, LiveAfter, Collapse, Base;
    var ci := ConflictItem(first, k, first);
    FoldStepView(view, vsym, live, sym, first, k, rest, merged);
    StepAnyNull(ci, map[], vsym, start);
    CollapseKeepsLive(view, vsym, ci, merged, map[], leaves, start);
  }

  lemma FoldStepView(view: LivePackets, vsym: LiveMap<int>, live: LivePackets, sym: LiveMap<int>, first: int, k: int,
                     rest: set<int>, merged: PacketInfo)
    requires FoldView(view, vsym, live, sym, first, rest) && rest != {} && k == Min(rest)
    ensures var ci := ConflictItem(first, k, first);
            var view', vsym' := LiveAfter(view, ci, merged), Collapse(ci, map[], vsym);
            && Merged(ci, map[], vsym) == Overlay(vsym[first], vsym[k])
            && first in view' && view'[first] == merged
            && FoldView(view', vsym', live, sym, first, rest - {k})
            && Fold(vsym'[first], rest - {k}, sym) == Fold(vsym[first], rest, sym)
  {
    hide *;
    var ci := ConflictItem(first, k, first);
    ViewHas(view, vsym, live, sym, first, k, rest);
    AccumulatedStep(ci, vsym);
    ViewAfter(view, vsym, live, sym, first, k, rest, merged);
    FoldNext(vsym[first], k, rest, sym);
  }

  lemma ViewMembers(view: LivePackets, vsym: LiveMap<int>, live: LivePackets, sym: LiveMap<int>, first: int, rest: set<int>)
    requires FoldView(view, vsym, live, sym, first, rest)
    ensures first !in rest && rest <= live.Keys && rest <= sym.Keys && view.Keys == vsym.Keys
    ensures first in view && (forall j :: j in view <==> j in rest || j == first) && forall j :: j in rest ==> view[j] == live[j]
  {
    assert forall j :: j in view <==> j in vsym;
  }

  lemma ApartBuffers(x: PacketInfo, xs: Info<int>, y: PacketInfo, ys: Info<int>)
    requires Apart(x, xs, y, ys)
    ensures x.pkt.pkt != y.pkt.pkt
  {
  }

  lemma ViewHas(view: LivePackets, vsym: LiveMap<int>, live: LivePackets, sym: LiveMap<int>, first: int, k: int, rest: set<int>)
    requires FoldView(view, vsym, live, sym, first, rest) && k in rest
    ensures first != k && first in vsym && k in vsym && k in sym && vsym[k] == sym[k] && rest <= sym.Keys
    ensures Enabled(ConflictItem(first, k, first), vsym)
  {
  }

  /** The merge of two packets that goes to the first one's place. */
  lemma AccumulatedStep(ci: ConflictItem, vsym: LiveMap<int>)
    requires Enabled(ci, vsym) && ci.parent == ci.major
    ensures Merged(ci, map[], vsym) == Overlay(vsym[ci.major], vsym[ci.minor])
    ensures ci.major in Collapse(ci, map[], vsym) && Collapse(ci, map[], vsym)[ci.major] == Merged(ci, map[], vsym)
  {
    hide Overlay;
    var o := Overlay(vsym[ci.major], vsym[ci.minor]);
    assert o.written + {} == o.written;
  }

  lemma ViewAfter(view: LivePackets, vsym: LiveMap<int>, live: LivePackets, sym: LiveMap<int>, first: int, k: int,
                  rest: set<int>, merged: PacketInfo)
    requires FoldView(view, vsym, live, sym, first, rest) && k in rest
    requires Enabled(ConflictItem(first, k, first), vsym)
    ensures var ci := ConflictItem(first, k, first);
      && first in LiveAfter(view, ci, merged) && LiveAfter(view, ci, merged)[first] == merged
      && FoldView(LiveAfter(view, ci, merged), Collapse(ci, map[], vsym), live, sym, first, rest - {k})
  {
    hide Merged;
  }

  lemma FoldNext(acc: Info<int>, k: int, rest: set<int>, sym: LiveMap<int>)
    requires rest != {} && k == Min(rest) && rest <= sym.Keys
    ensures Fold(Overlay(acc, sym[k]), rest - {k}, sym) == Fold(acc, rest, sym)
  {
    hide Overlay;
  }

  lemma FoldDone(acc: Info<int>, m: LiveMap<int>)
    ensures Fold(acc, {}, m) == acc
  {
  }

  lemma EndFold(view: LivePackets, vsym: LiveMap<int>, sym: LiveMap<int>, first: int, leaves: PacketMap, start: map<int, Wire>)
    requires Live(view, vsym, leaves, start) && forall j :: j in view <==> j == first
    ensures view[first].pkt.Valid() && first in vsym
    ensures Base(leaves, start) && Entry(view[first], vsym[first], leaves, start)
    ensures IsNull(view[first].pkt.Value()) ==> Doomed(leaves, start)
    ensures !IsNull(view[first].pkt.Value()) ==> !AnyNull(BuildMap(vsym, Lookup(start)))
  {
    hide Decode, IsTcpOverIp, IsNull, Build;
    assert first in view && forall j :: j in vsym ==> j == first;
    if IsNull(view[first].pkt.Value()) {
      NullEntry(view[first], vsym[first], leaves, start);
    }
  }

  lemma LiveAfterEntries(live: LivePackets, ci: ConflictItem, pi: PacketInfo)
    ensures forall k :: k in LiveAfter(live, ci, pi) ==>
              (k in live && LiveAfter(live, ci, pi)[k] == live[k]) || LiveAfter(live, ci, pi)[k] == pi
  {
  }

  /** If one of two live packets is null, so was some leaf at the start. */
  lemma NullSource(live: LivePackets, sym: LiveMap<int>, a: int, b: int, leaves: PacketMap, start: map<int, Wire>)
    returns (now: map<int, Wire>, k: int)
    requires Live(live, sym, leaves, start) && a in live && b in live
    ensures Stored(leaves) && live.Keys == sym.Keys
    ensures now == Values(leaves) && now.Keys == start.Keys == leaves.Keys
    ensures forall j :: j in now ==> IsNull(now[j]) == IsNull(start[j])
    ensures IsNull(Build(sym[a].fields, Lookup(start))) || IsNull(Build(sym[b].fields, Lookup(start))) ==> NullAt(start, k)
  {
    hide Decode, IsTcpOverIp, IsNull, Build, Entry;
    now := Values(leaves);
    if IsNull(Build(sym[a].fields, Lookup(start))) {
      NullEntry(live[a], sym[a], leaves, start);
      k := sym[a].fields.sip;
    } else if IsNull(Build(sym[b].fields, Lookup(start))) {
      NullEntry(live[b], sym[b], leaves, start);
      k := sym[b].fields.sip;
    } else {
      k := 0;
    }
  }

  lemma NowDoomed(leaves: PacketMap, start: map<int, Wire>, now: map<int, Wire>, base: int, nullLeaf: int)
    requires Stored(leaves) && now.Keys == start.Keys == leaves.Keys
    requires forall j :: j in now ==> IsNull(now[j]) == IsNull(start[j])
    requires DroppedInto(now, Values(leaves), base) && NullAt(start, nullLeaf)
    ensures Doomed(leaves, start)
  {
    forall k | NullAt(start, k)
      ensures NullAt(Values(leaves), k)
    {
      DroppedIsDoomed(now, Values(leaves), base, start, k);
    }
  }

  lemma StepAnyNull(ci: ConflictItem, writes: WriteTable, sym: LiveMap<int>, start: map<int, Wire>)
    requires Enabled(ci, sym)
    requires !IsNull(Build(sym[ci.major].fields, Lookup(start))) && !IsNull(Build(sym[ci.minor].fields, Lookup(start)))
    ensures AnyNull(BuildMap(Collapse(ci, writes, sym), Lookup(start))) <==> AnyNull(BuildMap(sym, Lookup(start)))
  {
    StepNatural(ci, writes, sym, Lookup(start));
    StepKeepsNull(ci, writes, BuildMap(sym, Lookup(start)));
  }

  /** Adding the parent's writes changes neither the packet nor where it comes from. */
  lemma AddWrites(before: PacketInfo, after: PacketInfo, live: LivePackets, sym: LiveMap<int>, ci: ConflictItem,
                  nodes: map<int, NF>,
                  leaves: PacketMap, start: map<int, Wire>)
    requires Enabled(ci, sym) && live.Keys == sym.Keys && Stored(leaves)
    requires after.pkt == before.pkt
    requires after.writtenFields == before.writtenFields + ParentWrites(ci.parent, WritesOfNodes(nodes))
    requires Entry(before, Overlay(sym[ci.major], sym[ci.minor]), leaves, start)
    requires forall k :: k in live && k != ci.major && k != ci.minor ==>
               Apart(before, Overlay(sym[ci.major], sym[ci.minor]), live[k], sym[k])
    ensures Entry(after, Merged(ci, WritesOfNodes(nodes), sym), leaves, start)
    ensures forall k :: k in live && k != ci.major && k != ci.minor ==>
              Apart(after, Merged(ci, WritesOfNodes(nodes), sym), live[k], sym[k])
  {
    hide Decode, IsTcpOverIp, IsNull, Overlay, Build;
  }
}

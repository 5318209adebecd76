/** Packets as the merger sees them: five fields that a function may read or
    write, the packet id, and the set of fields counted as written. */
module Packets {

  datatype Option<+T> = None | Some(value: T)

  newtype byte = x: int | 0 <= x < 256

  type Bytes = seq<byte>

  /** The packet fields, in the order of their enumeration. */
  datatype Field = SIP | DIP | SPORT | DPORT | PAYLOAD

  /** The fields the merger copies from a minor packet to a major one. */
  const MERGEABLE: set<Field> := {DIP, DPORT, PAYLOAD}

  /** The type of a field's value is a parameter. With byte sequences it is a
      real packet; with integers it records which leaf each field came from,
      so one definition of merging serves both. */
  datatype Fields<T> = Fields(sip: T, dip: T, sport: T, dport: T, payload: T, id: T) {
    function Get(f: Field): T {
      match f
      case SIP => sip
      case DIP => dip
      case SPORT => sport
      case DPORT => dport
      case PAYLOAD => payload
    }
  }

  type Wire = Fields<Bytes>

  /** A packet together with the fields that count as written. */
  datatype Info<T> = Info(fields: Fields<T>, written: set<Field>)

  /** A packet is null, that is dropped, when its source port and address are zero. */
  predicate IsNull(p: Wire) {
    p.sport == [0, 0] && p.sip == [0, 0, 0, 0]
  }

  /** May the bytes be a field of a real packet? Addresses have four bytes,
      ports two, and a payload is read up to its first NUL. */
  predicate FitsField(f: Field, v: Bytes) {
    match f
    case SIP => |v| == 4
    case DIP => |v| == 4
    case SPORT => |v| == 2
    case DPORT => |v| == 2
    case PAYLOAD => 0 !in v
  }

  /** A packet that some buffer holds. */
  ghost predicate WellFormed(p: Wire) {
    |p.id| == 2 && forall f: Field :: FitsField(f, p.Get(f))
  }

  ghost predicate AgreeOn<T>(p: Fields<T>, q: Fields<T>, fields: set<Field>) {
    forall f: Field :: f in fields ==> p.Get(f) == q.Get(f)
  }

  /** Everything but the listed fields is the same, the id included. */
  ghost predicate AgreeOutside<T>(p: Fields<T>, q: Fields<T>, fields: set<Field>) {
    p.id == q.id && forall f: Field :: f !in fields ==> p.Get(f) == q.Get(f)
  }

  lemma AgreeEverywhere<T>(p: Fields<T>, q: Fields<T>)
    requires p.id == q.id && forall f: Field :: p.Get(f) == q.Get(f)
    ensures p == q
  {
    assert p.Get(SIP) == q.Get(SIP) && p.Get(DIP) == q.Get(DIP) && p.Get(SPORT) == q.Get(SPORT);
    assert p.Get(DPORT) == q.Get(DPORT) && p.Get(PAYLOAD) == q.Get(PAYLOAD);
  }

  /** Does the merge take field f from the minor packet? */
  predicate FromMinor(f: Field, major: set<Field>, minor: set<Field>) {
    f in MERGEABLE && f in minor && f !in major
  }

  function Choose<T>(f: Field, major: Info<T>, minor: Info<T>): T {
    if FromMinor(f, major.written, minor.written) then minor.fields.Get(f) else major.fields.Get(f)
  }

  /** The merge of two packets, neither of them null: the major packet with
      the minor's writes added wherever the major has not written. */
  function Overlay<T>(major: Info<T>, minor: Info<T>): (merged: Info<T>)
    ensures merged.written == major.written + minor.written
    ensures merged.fields.id == major.fields.id
    ensures forall f: Field ::
              merged.fields.Get(f) == Choose(f, major, minor)
  {
    Info(Fields(major.fields.sip, Choose(DIP, major, minor), major.fields.sport,
                Choose(DPORT, major, minor), Choose(PAYLOAD, major, minor), major.fields.id),
         major.written + minor.written)
  }

  lemma OverlayAssociative<T>(a: Info<T>, b: Info<T>, c: Info<T>)
    ensures Overlay(Overlay(a, b), c) == Overlay(a, Overlay(b, c))
  {
    var l, r := Overlay(Overlay(a, b), c), Overlay(a, Overlay(b, c));
    assert l.written == r.written;
    AgreeEverywhere(l.fields, r.fields);
  }

  /** Copies of one packet whose writers touched different fields merge to
      the same packet whichever of them is major. */
  lemma OverlayCommutes<T>(a: Info<T>, b: Info<T>)
    requires a.written !! b.written
    requires a.written + b.written <= MERGEABLE
    requires AgreeOutside(a.fields, b.fields, a.written + b.written)
    ensures Overlay(a, b) == Overlay(b, a)
  {
    var l, r := Overlay(a, b), Overlay(b, a);
    assert l.written == r.written;
    AgreeEverywhere(l.fields, r.fields);
  }

  /** Disjointness cannot be dropped: on a field both have written, the two
      orders agree exactly when both wrote the same value. */
  lemma OverlayConflict<T>(a: Info<T>, b: Info<T>, f: Field)
    requires f in a.written && f in b.written
    ensures Overlay(a, b).fields.Get(f) == a.fields.Get(f)
    ensures Overlay(a, b) == Overlay(b, a) ==> a.fields.Get(f) == b.fields.Get(f)
  {
    assert Overlay(a, b).fields.Get(f) == a.fields.Get(f);
    assert Overlay(b, a).fields.Get(f) == b.fields.Get(f);
  }

  /** Copies that are still the same merge to that packet. */
  lemma OverlaySame<T>(a: Info<T>, b: Info<T>)
    requires a.fields == b.fields
    ensures Overlay(a, b).fields == a.fields
  {
    forall f: Field
      ensures Overlay(a, b).fields.Get(f) == a.fields.Get(f)
    {
      assert Overlay(a, b).fields.Get(f) == Choose(f, a, b);
    }
    AgreeEverywhere(Overlay(a, b).fields, a.fields);
  }

  lemma OverlayKeepsNull(a: Info<Bytes>, b: Info<Bytes>)
    ensures IsNull(Overlay(a, b).fields) == IsNull(a.fields)
  {
    assert Overlay(a, b).fields.Get(SIP) == a.fields.Get(SIP);
    assert Overlay(a, b).fields.Get(SPORT) == a.fields.Get(SPORT);
  }
}

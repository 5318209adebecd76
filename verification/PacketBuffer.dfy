/** The packet as a byte buffer: an Ethernet header, an IP header laid out as
    in section 3.1 of RFC 791, a TCP header as in section 3.1 of RFC 793,
    then the payload. Several packet objects may share one buffer. */
module PacketBuffer {
  import opened Packets

  // Offsets into the buffer: 14 bytes of Ethernet header, 20 of IP, 20 of TCP.
  const ETHER_TYPE := 12
  const IP_LENGTH := 16
  const IP_ID := 18
  const IP_PROTOCOL := 23
  const IP_SRC := 26
  const IP_DST := 30
  const TCP_SRC := 34
  const TCP_DST := 36
  const DATA := 54

  /** The bytes before the first NUL, which is what the program reads back as a string. */
  function CString(s: Bytes): (r: Bytes)
    ensures 0 !in r && |r| <= |s| && r == s[..|r|]
    ensures |r| < |s| ==> s[|r|] == 0
  {
    if s == [] || s[0] == 0 then [] else [s[0]] + CString(s[1..])
  }

  /** An IP packet that carries TCP: only for these are the header pointers set. */
  predicate IsTcpOverIp(b: Bytes) {
    |b| >= DATA && b[ETHER_TYPE] == 8 && b[ETHER_TYPE + 1] == 0 && b[IP_PROTOCOL] == 6
  }

  function Decode(b: Bytes): Wire
    requires |b| >= DATA
  {
    Fields(b[IP_SRC..IP_SRC + 4], b[IP_DST..IP_DST + 4], b[TCP_SRC..TCP_SRC + 2], b[TCP_DST..TCP_DST + 2],
           CString(b[DATA..]), b[IP_ID..IP_ID + 2])
  }

  /** A 16-bit number in network byte order, higher bits cut off. */
  function ToNetwork(n: int): (b: Bytes)
    ensures |b| == 2
  {
    [((n / 256) % 256) as byte, (n % 256) as byte]
  }

  function FromNetwork(b: Bytes): (n: int)
    requires |b| == 2
    ensures 0 <= n < 65536
  {
    b[0] as int * 256 + b[1] as int
  }

  /** Reading a port or id back gives the number modulo 2^16, and writing
      back what was read changes no byte. */
  lemma NetworkRoundTrip(n: int, b: Bytes)
    requires |b| == 2
    ensures FromNetwork(ToNetwork(n)) == n % 65536
    ensures ToNetwork(FromNetwork(b)) == b
  {
    assert n % 65536 == ((n / 256) % 256) * 256 + n % 256 by {
      var q := n / 256;
      assert n == q * 256 + n % 256 && q == (q / 256) * 256 + q % 256;
      assert n == (q / 256) * 65536 + ((q % 256) * 256 + n % 256);
    }
    var m := FromNetwork(b);
    assert m / 256 == b[0] as int && m % 256 == b[1] as int;
  }

  /** The first of two bytes is the more significant one: numbers are in the
      order of their bytes, as in appendix B of RFC 791. */
  lemma NetworkOrder(b: Bytes, c: Bytes, m: int, n: int)
    requires |b| == |c| == 2 && 0 <= m < 65536 && 0 <= n < 65536
    ensures FromNetwork(b) < FromNetwork(c) <==> b[0] < c[0] || (b[0] == c[0] && b[1] < c[1])
    ensures m < n <==> ToNetwork(m)[0] < ToNetwork(n)[0] || (ToNetwork(m)[0] == ToNetwork(n)[0] && ToNetwork(m)[1] < ToNetwork(n)[1])
  {
    NetworkRoundTrip(m, ToNetwork(m));
    NetworkRoundTrip(n, ToNetwork(n));
  }

  function Zeros(n: nat): (z: Bytes)
    ensures |z| == n
  {
    seq(n, _ => 0)
  }

  /** The buffer of a packet made from its fields. */
  function Frame(sip: Bytes, sport: int, dip: Bytes, dport: int, id: int, data: Bytes): (b: Bytes)
    requires |sip| == 4 && |dip| == 4
    ensures |b| == DATA + |data| && IsTcpOverIp(b)
  {
    Zeros(12) + [8, 0]
    + Zeros(2) + ToNetwork(DATA + |data|) + ToNetwork(id) + Zeros(3) + [6] + Zeros(2) + sip + dip
    + ToNetwork(sport) + ToNetwork(dport) + Zeros(16)
    + data
  }

  /** Decoding the frame gives back the addresses, the ports and id as 16-bit
      numbers, and the payload up to its first NUL. */
  lemma FrameRoundTrip(sip: Bytes, sport: int, dip: Bytes, dport: int, id: int, data: Bytes)
    requires |sip| == 4 && |dip| == 4
    ensures Decode(Frame(sip, sport, dip, dport, id, data))
            == Fields(sip, dip, ToNetwork(sport), ToNetwork(dport), CString(data), ToNetwork(id))
  {
    var b := Frame(sip, sport, dip, dport, id, data);
    assert b[IP_SRC..IP_SRC + 4] == sip;
    assert b[IP_DST..IP_DST + 4] == dip;
    assert b[TCP_SRC..TCP_SRC + 2] == ToNetwork(sport);
    assert b[TCP_DST..TCP_DST + 2] == ToNetwork(dport);
    assert b[IP_ID..IP_ID + 2] == ToNetwork(id);
    assert b[DATA..] == data;
  }

  /** Where every byte of the frame comes from, by its position. */
  lemma FrameBytes(sip: Bytes, sport: int, dip: Bytes, dport: int, id: int, data: Bytes, i: nat)
    requires |sip| == 4 && |dip| == 4 && i < 54 + |data|
    ensures |Frame(sip, sport, dip, dport, id, data)| == 54 + |data|
    ensures var at := Frame(sip, sport, dip, dport, id, data)[i];
      if i == 12 then at == 8
      else if 16 <= i < 18 then at == ToNetwork(54 + |data|)[i - 16]
      else if 18 <= i < 20 then at == ToNetwork(id)[i - 18]
      else if i == 23 then at == 6
      else if 26 <= i < 30 then at == sip[i - 26]
      else if 30 <= i < 34 then at == dip[i - 30]
      else if 34 <= i < 36 then at == ToNetwork(sport)[i - 34]
      else if 36 <= i < 38 then at == ToNetwork(dport)[i - 36]
      else if 54 <= i then at == data[i - 54]
      else at == 0
  {
    hide ToNetwork;
  }

  /** The generator's port and packet id. */
  lemma NetworkSamples()
    ensures ToNetwork(800) == [3, 32] && ToNetwork(32768) == [128, 0]
    ensures FromNetwork([3, 32]) == 800 && FromNetwork([128, 0]) == 32768
  {
  }

  /** The well-formed packets are exactly those that some buffer decodes to. */
  lemma DecodedExactly(p: Wire)
    ensures WellFormed(p) <==> exists b: Bytes :: |b| >= DATA && Decode(b) == p
  {
    if WellFormed(p) {
      assert FitsField(SIP, p.Get(SIP)) && FitsField(DIP, p.Get(DIP)) && FitsField(SPORT, p.Get(SPORT));
      assert FitsField(DPORT, p.Get(DPORT)) && FitsField(PAYLOAD, p.Get(PAYLOAD));
      var sport, dport, id := FromNetwork(p.sport), FromNetwork(p.dport), FromNetwork(p.id);
      NetworkRoundTrip(0, p.sport);
      NetworkRoundTrip(0, p.dport);
      NetworkRoundTrip(0, p.id);
      FrameRoundTrip(p.sip, sport, p.dip, dport, id, p.payload);
      var b := Frame(p.sip, sport, p.dip, dport, id, p.payload);
      assert CString(p.payload) == p.payload;
      assert |b| >= DATA && Decode(b) == p;
    }
    if b: Bytes :| |b| >= DATA && Decode(b) == p {
      forall f: Field
        ensures FitsField(f, p.Get(f))
      {
      }
    }
  }

  /** The buffer with the bytes from offset at replaced. */
  function Patch(b: Bytes, at: nat, bytes: Bytes): (r: Bytes)
    requires at + |bytes| <= |b|
    ensures |r| == |b|
  {
    b[..at] + bytes + b[at + |bytes|..]
  }

  /** Each header field is decoded from its own bytes: replacing one leaves the others alone. */
  lemma PatchDecode(b: Bytes, ip: Bytes, port: Bytes)
    requires IsTcpOverIp(b) && |ip| == 4 && |port| == 2
    ensures IsTcpOverIp(Patch(b, IP_DST, ip)) && Decode(Patch(b, IP_DST, ip)) == Decode(b).(dip := ip)
    ensures IsTcpOverIp(Patch(b, TCP_DST, port)) && Decode(Patch(b, TCP_DST, port)) == Decode(b).(dport := port)
    ensures IsTcpOverIp(Patch(b, IP_SRC, ip)) && Decode(Patch(b, IP_SRC, ip)) == Decode(b).(sip := ip)
    ensures IsTcpOverIp(Patch(b, TCP_SRC, port)) && Decode(Patch(b, TCP_SRC, port)) == Decode(b).(sport := port)
  {
    PatchAt(b, IP_DST, ip);
    PatchAt(b, TCP_DST, port);
    PatchAt(b, IP_SRC, ip);
    PatchAt(b, TCP_SRC, port);
  }

  lemma PatchAt(b: Bytes, at: nat, bytes: Bytes)
    requires at + |bytes| <= |b|
    ensures Patch(b, at, bytes)[at..at + |bytes|] == bytes
    ensures forall lo, hi :: 0 <= lo <= hi <= at ==> Patch(b, at, bytes)[lo..hi] == b[lo..hi]
    ensures forall lo, hi :: at + |bytes| <= lo <= hi <= |b| ==> Patch(b, at, bytes)[lo..hi] == b[lo..hi]
    ensures forall lo :: at + |bytes| <= lo <= |b| ==> Patch(b, at, bytes)[lo..] == b[lo..]
    ensures forall i :: 0 <= i < |b| && !(at <= i < at + |bytes|) ==> Patch(b, at, bytes)[i] == b[i]
  {
  }

  class Packet {
    var pkt: array<byte>

    ghost predicate Valid()
      reads this, pkt
    {
      IsTcpOverIp(pkt[..])
    }

    function Value(): Wire
      requires Valid()
      reads this, pkt
    {
      Decode(pkt[..])
    }

    /** A view of an existing buffer, shared with whoever else holds it. */
    constructor FromBuffer(buffer: array<byte>)
      requires IsTcpOverIp(buffer[..])
      ensures pkt == buffer && Valid()
    {
      pkt := buffer;
    }

    constructor FromFields(sip: Bytes, sport: int, dip: Bytes, dport: int, id: int, data: Bytes)
      requires |sip| == 4 && |dip| == 4
      ensures Valid() && fresh(pkt)
      ensures pkt[..] == Frame(sip, sport, dip, dport, id, data)
      ensures Value() == Fields(sip, dip, ToNetwork(sport), ToNetwork(dport), CString(data), ToNetwork(id))
    {
      var frame := Frame(sip, sport, dip, dport, id, data);
      var buffer := new byte[|frame|](i requires 0 <= i < |frame| => frame[i]);
      pkt := buffer;
      new;
      assert pkt[..] == frame;
      FrameRoundTrip(sip, sport, dip, dport, id, data);
    }

    method GetSrcIp() returns (ip: Bytes)
      requires Valid()
      ensures |ip| == 4 && ip == Value().sip
    {
      ip := pkt[IP_SRC..IP_SRC + 4];
      assert pkt[..][IP_SRC..IP_SRC + 4] == ip;
    }

    method GetDestIp() returns (ip: Bytes)
      requires Valid()
      ensures |ip| == 4 && ip == Value().dip
    {
      ip := pkt[IP_DST..IP_DST + 4];
      assert pkt[..][IP_DST..IP_DST + 4] == ip;
    }

    method GetSrcPort() returns (port: int)
      requires Valid()
      ensures 0 <= port < 65536 && ToNetwork(port) == Value().sport
      ensures pkt.Length >= 36 && port == pkt[34] as int * 256 + pkt[35] as int
    {
      port := FromNetwork(pkt[TCP_SRC..TCP_SRC + 2]);
      NetworkRoundTrip(0, pkt[TCP_SRC..TCP_SRC + 2]);
      assert pkt[..][TCP_SRC..TCP_SRC + 2] == pkt[TCP_SRC..TCP_SRC + 2];
    }

    method GetDestPort() returns (port: int)
      requires Valid()
      ensures 0 <= port < 65536 && ToNetwork(port) == Value().dport
      ensures pkt.Length >= 38 && port == pkt[36] as int * 256 + pkt[37] as int
    {
      port := FromNetwork(pkt[TCP_DST..TCP_DST + 2]);
      NetworkRoundTrip(0, pkt[TCP_DST..TCP_DST + 2]);
      assert pkt[..][TCP_DST..TCP_DST + 2] == pkt[TCP_DST..TCP_DST + 2];
    }

    method GetPktId() returns (id: int)
      requires Valid()
      ensures 0 <= id < 65536 && ToNetwork(id) == Value().id
      ensures pkt.Length >= 20 && id == pkt[18] as int * 256 + pkt[19] as int
    {
      id := FromNetwork(pkt[IP_ID..IP_ID + 2]);
      NetworkRoundTrip(0, pkt[IP_ID..IP_ID + 2]);
      assert pkt[..][IP_ID..IP_ID + 2] == pkt[IP_ID..IP_ID + 2];
    }

    method GetPayload() returns (data: Bytes)
      requires Valid()
      ensures data == Value().payload && 0 !in data
    {
      data := CString(pkt[DATA..]);
      assert pkt[..][DATA..] == pkt[DATA..];
    }

    /** Source port 0 and source address 0.0.0.0 mark a dropped packet. */
    predicate CheckNull()
      requires Valid()
      reads this, pkt
      ensures CheckNull() <==> IsNull(Value())
      ensures pkt.Length >= 36 && (CheckNull() <==> forall i :: 26 <= i < 30 || 34 <= i < 36 ==> pkt[i] == 0)
    {
      NetworkRoundTrip(0, pkt[TCP_SRC..TCP_SRC + 2]);
      assert pkt[..][TCP_SRC..TCP_SRC + 2] == pkt[TCP_SRC..TCP_SRC + 2] && pkt[..][IP_SRC..IP_SRC + 4] == pkt[IP_SRC..IP_SRC + 4];
      FromNetwork(pkt[TCP_SRC..TCP_SRC + 2]) == 0 && pkt[IP_SRC..IP_SRC + 4] == [0, 0, 0, 0]
    }

    method PatchBuffer(at: nat, bytes: Bytes)
      requires at + |bytes| <= pkt.Length
      modifies pkt
      ensures pkt[..] == Patch(old(pkt[..]), at, bytes)
    {
      forall i | 0 <= i < |bytes| {
        pkt[at + i] := bytes[i];
      }
    }

    method Nullify()
      requires Valid()
      modifies pkt
      ensures Valid() && IsNull(Value())
      ensures forall i :: 0 <= i < pkt.Length ==> pkt[i] == if 26 <= i < 30 || 34 <= i < 36 then 0 else old(pkt[i])
      ensures Value() == old(Value()).(sip := [0, 0, 0, 0], sport := [0, 0])
    {
      ghost var before := pkt[..];
      PatchDecode(before, [0, 0, 0, 0], [0, 0]);
      PatchBuffer(TCP_SRC, [0, 0]);
      PatchDecode(pkt[..], [0, 0, 0, 0], [0, 0]);
      PatchBuffer(IP_SRC, [0, 0, 0, 0]);
    }

    method WriteDestIp(ip: Bytes)
      requires Valid() && |ip| == 4
      modifies pkt
      ensures Valid() && forall i :: 0 <= i < pkt.Length ==> pkt[i] == if 30 <= i < 34 then ip[i - 30] else old(pkt[i])
      ensures Value() == old(Value()).(dip := ip)
    {
      PatchDecode(pkt[..], ip, [0, 0]);
      PatchBuffer(IP_DST, ip);
    }

    method WriteDestPort(port: int)
      requires Valid()
      modifies pkt
      ensures Valid() && pkt.Length >= 38 && pkt[36] as int * 256 + pkt[37] as int == port % 65536
      ensures forall i :: 0 <= i < pkt.Length && !(36 <= i < 38) ==> pkt[i] == old(pkt[i])
      ensures Value() == old(Value()).(dport := ToNetwork(port))
    {
      PatchDecode(pkt[..], [0, 0, 0, 0], ToNetwork(port));
      NetworkRoundTrip(port, [0, 0]);
      PatchBuffer(TCP_DST, ToNetwork(port));
    }

    /** Moves the packet to a buffer of its own; the old buffer stays as it was. */
    method WritePayload(data: Bytes)
      requires Valid()
      modifies this`pkt
      ensures Valid() && fresh(pkt)
      ensures Value() == old(Value()).(payload := CString(data))
    {
      var sip := GetSrcIp();
      var sport := GetSrcPort();
      var dip := GetDestIp();
      var dport := GetDestPort();
      var id := GetPktId();
      var moved := new Packet.FromFields(sip, sport, dip, dport, id, data);
      pkt := moved.pkt;
    }
  }
}

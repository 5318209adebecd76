/** Configurations as messages and back.

    A message's maps are visited in an order that nothing fixes. Decoding is
    therefore described as a relation, which every order of visiting meets,
    and the round trip is proved for all configurations related to a message:
    what is received is what was sent, in whatever order it is unpacked. */
module ConfigMessages {
  import opened Packets
  import opened MergeSpec
  import opened ActionTable
  import opened MachineConfig

  /** An enumeration read from a message may hold a number nobody declared. */
  datatype NFMsg = DNF_FIREWALL | DNF_LOADBALANCER | PROXY | COMPRESSOR | PKTGEN | UNDECLARED(number: nat)

  datatype MachineMsg = MachineMsg(id: uint64, ip: string, bridgeIp: string, nodes: seq<uint64>)

  datatype RuntimeNodeMsg =
    RuntimeNodeMsg(id: uint64, nf: NFMsg, neighbors: seq<uint64>, inport: uint64, outport: uint64, machineId: uint64, ip: string)

  datatype ConfigMsg = ConfigMsg(machineId: uint64, machineMap: map<uint64, MachineMsg>, nodeMap: map<uint64, RuntimeNodeMsg>)

  // ----- What the conversions compute -----

  function WireSeq(s: seq<int32>): (r: seq<uint64>)
    ensures |r| == |s| && forall i :: 0 <= i < |s| ==> r[i] == ToWire(s[i])
  {
    seq(|s|, i requires 0 <= i < |s| => ToWire(s[i]))
  }

  function UnwireSeq(s: seq<uint64>): (r: seq<int32>)
    ensures |r| == |s| && forall i :: 0 <= i < |s| ==> r[i] == FromWire(s[i])
  {
    seq(|s|, i requires 0 <= i < |s| => FromWire(s[i]))
  }

  function EncodeMachine(m: MachineRecord): MachineMsg {
    MachineMsg(ToWire(m.id), m.ip, m.bridgeIp, WireSeq(m.nodeIds))
  }

  function DecodeMachine(msg: MachineMsg): MachineRecord {
    MachineRecord(FromWire(msg.id), msg.ip, msg.bridgeIp, UnwireSeq(msg.nodes))
  }

  function EncodeNF(nf: NF): NFMsg {
    match nf
    case dnf_firewall => DNF_FIREWALL
    case dnf_loadbalancer => DNF_LOADBALANCER
    case proxy => PROXY
    case compressor => COMPRESSOR
    case pktgen => PKTGEN
  }

  /** An undeclared function makes decoding throw. */
  function DecodeNF(nf: NFMsg): Option<NF> {
    match nf
    case DNF_FIREWALL => Some(dnf_firewall)
    case DNF_LOADBALANCER => Some(dnf_loadbalancer)
    case PROXY => Some(proxy)
    case COMPRESSOR => Some(compressor)
    case PKTGEN => Some(pktgen)
    case UNDECLARED(_) => None
  }

  function EncodeNode(n: NodeRecord): RuntimeNodeMsg {
    RuntimeNodeMsg(ToWire(n.id), EncodeNF(n.nf), WireSeq(n.neighbors), ToWire(n.inport), ToWire(n.outport),
                   ToWire(n.machineId), n.ip)
  }

  function DecodeNode(msg: RuntimeNodeMsg): Option<NodeRecord> {
    match DecodeNF(msg.nf)
    case None => None
    case Some(nf) =>
      Some(NodeRecord(FromWire(msg.id), nf, UnwireSeq(msg.neighbors), FromWire(msg.inport), FromWire(msg.outport),
                      FromWire(msg.machineId), msg.ip))
  }

  lemma MachineRoundTrip(m: MachineRecord)
    ensures DecodeMachine(EncodeMachine(m)) == m
  {
    SeqRoundTrip(m.nodeIds);
    IntThroughWire(m.id, 0);
  }

  lemma NodeRoundTrip(n: NodeRecord)
    ensures DecodeNode(EncodeNode(n)) == Some(n)
  {
    SeqRoundTrip(n.neighbors);
    IntThroughWire(n.id, 0);
    IntThroughWire(n.inport, 0);
    IntThroughWire(n.outport, 0);
    IntThroughWire(n.machineId, 0);
  }

  /** Every part of a record travels in the message's part of the same name,
      lists in their order: changing it changes that part alone. */
  lemma PartsByName(m: MachineRecord, n: NodeRecord, text: string, x: int32)
    ensures EncodeMachine(m.(ip := text)) == EncodeMachine(m).(ip := text)
    ensures EncodeMachine(m.(bridgeIp := text)) == EncodeMachine(m).(bridgeIp := text)
    ensures EncodeMachine(m.(id := x)) == EncodeMachine(m).(id := ToWire(x))
    ensures EncodeNode(n.(id := x)) == EncodeNode(n).(id := ToWire(x)) && EncodeNode(n.(ip := text)) == EncodeNode(n).(ip := text)
    ensures EncodeNode(n.(inport := x)) == EncodeNode(n).(inport := ToWire(x))
    ensures EncodeNode(n.(outport := x)) == EncodeNode(n).(outport := ToWire(x))
    ensures EncodeNode(n.(machineId := x)) == EncodeNode(n).(machineId := ToWire(x))
    ensures EncodeMachine(m.(nodeIds := m.nodeIds + [x])).nodes == EncodeMachine(m).nodes + [ToWire(x)]
    ensures EncodeNode(n.(neighbors := n.neighbors + [x])).neighbors == EncodeNode(n).neighbors + [ToWire(x)]
    ensures DecodeNF(PROXY) == Some(proxy) && DecodeNF(COMPRESSOR) == Some(compressor) && DecodeNF(PKTGEN) == Some(pktgen)
    ensures DecodeNF(DNF_FIREWALL) == Some(dnf_firewall) && DecodeNF(DNF_LOADBALANCER) == Some(dnf_loadbalancer)
  {
  }

  lemma SeqRoundTrip(s: seq<int32>)
    ensures UnwireSeq(WireSeq(s)) == s
  {
    forall i | 0 <= i < |s|
      ensures FromWire(WireSeq(s)[i]) == s[i]
    {
      IntThroughWire(s[i], 0);
    }
  }

  // ----- Whole configurations -----

  /** The map's entries under the wire forms of their keys. */
  ghost predicate Encodes<V, M>(m: map<int32, V>, msgs: map<uint64, M>, encode: V -> M) {
    (forall u :: u in msgs <==> FromWire(u) in m && ToWire(FromWire(u)) == u)
    && forall u :: u in msgs && FromWire(u) in m ==> msgs[u] == encode(m[FromWire(u)])
  }

  ghost predicate EncodesConfig(c: Config, msg: ConfigMsg) {
    msg.machineId == ToWire(c.machineId)
    && Encodes(c.machines, msg.machineMap, EncodeMachine) && Encodes(c.nodes, msg.nodeMap, EncodeNode)
  }

  /** What a missing map entry reads as. */
  const DEFAULT_MACHINE := MachineMsg(0, "", "", [])

  function OwnMsg(msg: ConfigMsg): MachineMsg {
    var own := ToWire(FromWire(msg.machineId));
    if own in msg.machineMap then msg.machineMap[own] else DEFAULT_MACHINE
  }

  /** The machine messages besides the own one that are decoded. */
  predicate Other(msg: ConfigMsg, u: uint64) {
    u in msg.machineMap && FromWire(u) != FromWire(msg.machineId)
  }

  /** A possible result of decoding: the own machine, one machine for every
      id that the other messages give, and one node for every id that the node
      messages give; where several give the same id, one of them. */
  ghost predicate Decodes(msg: ConfigMsg, c: Config) {
    var own := DecodeMachine(OwnMsg(msg));
    c.machineId == own.id && own.id in c.machines && c.machines[own.id] == own
    && (forall u :: Other(msg, u) ==> DecodeMachine(msg.machineMap[u]).id in c.machines)
    && (forall id :: id in c.machines && id != own.id ==> FromSome(msg, c.machines[id], id))
    && (forall u :: u in msg.nodeMap ==> DecodeNode(msg.nodeMap[u]).Some? && DecodeNode(msg.nodeMap[u]).value.id in c.nodes)
    && (forall id :: id in c.nodes ==> NodeFromSome(msg, c.nodes[id], id))
  }

  ghost predicate FromSome(msg: ConfigMsg, m: MachineRecord, id: int32) {
    m.id == id && exists u :: Other(msg, u) && DecodeMachine(msg.machineMap[u]) == m
  }

  ghost predicate NodeFromSome(msg: ConfigMsg, n: NodeRecord, id: int32) {
    n.id == id && exists u :: u in msg.nodeMap && DecodeNode(msg.nodeMap[u]) == Some(n)
  }

  /** Machines and nodes are listed under their own ids, the own machine among them. */
  ghost predicate KeyedByOwnIds(c: Config) {
    c.machineId in c.machines
    && (forall id :: id in c.machines ==> c.machines[id].id == id)
    && (forall id :: id in c.nodes ==> c.nodes[id].id == id)
  }

  lemma MachineAt(c: Config, msg: ConfigMsg, id: int32)
    requires EncodesConfig(c, msg) && id in c.machines
    ensures ToWire(id) in msg.machineMap && FromWire(ToWire(id)) == id
    ensures DecodeMachine(msg.machineMap[ToWire(id)]) == c.machines[id]
  {
    IntThroughWire(id, 0);
    MachineRoundTrip(c.machines[id]);
  }

  lemma NodeAt(c: Config, msg: ConfigMsg, id: int32)
    requires EncodesConfig(c, msg) && id in c.nodes
    ensures ToWire(id) in msg.nodeMap && FromWire(ToWire(id)) == id
    ensures DecodeNode(msg.nodeMap[ToWire(id)]) == Some(c.nodes[id])
  {
    IntThroughWire(id, 0);
    NodeRoundTrip(c.nodes[id]);
  }

  lemma OwnAt(c: Config, msg: ConfigMsg)
    requires KeyedByOwnIds(c) && EncodesConfig(c, msg)
    ensures FromWire(msg.machineId) == c.machineId && DecodeMachine(OwnMsg(msg)) == c.machines[c.machineId]
  {
    MachineAt(c, msg, c.machineId);
  }

  lemma MachineSurvives(c: Config, msg: ConfigMsg, d: Config, id: int32)
    requires KeyedByOwnIds(c) && EncodesConfig(c, msg) && Decodes(msg, d)
    ensures id in d.machines <==> id in c.machines
    ensures id in d.machines ==> d.machines[id] == c.machines[id]
  {
    hide DecodeMachine, EncodeMachine, DecodeNode, EncodeNode, FromWire, ToWire, OwnMsg;
    OwnAt(c, msg);
    if id != c.machineId {
      if id in c.machines {
        MachineAt(c, msg, id);
        assert Other(msg, ToWire(id));
      }
      if id in d.machines {
        assert FromSome(msg, d.machines[id], id);
        var u :| Other(msg, u) && DecodeMachine(msg.machineMap[u]) == d.machines[id];
        MachineAt(c, msg, FromWire(u));
      }
    }
  }

  lemma NodeSurvives(c: Config, msg: ConfigMsg, d: Config, id: int32)
    requires KeyedByOwnIds(c) && EncodesConfig(c, msg) && Decodes(msg, d)
    ensures id in d.nodes <==> id in c.nodes
    ensures id in d.nodes ==> d.nodes[id] == c.nodes[id]
  {
    hide DecodeMachine, EncodeMachine, DecodeNode, EncodeNode, FromWire, ToWire, OwnMsg;
    if id in c.nodes {
      NodeAt(c, msg, id);
    }
    if id in d.nodes {
      assert NodeFromSome(msg, d.nodes[id], id);
      var u :| u in msg.nodeMap && DecodeNode(msg.nodeMap[u]) == Some(d.nodes[id]);
      NodeAt(c, msg, FromWire(u));
    }
  }

  /** Decoding what encoding made gives back the very same configuration, in
      whatever order the message's maps are visited. */
  lemma ConfigRoundTrip(c: Config, msg: ConfigMsg, d: Config)
    requires KeyedByOwnIds(c) && EncodesConfig(c, msg) && Decodes(msg, d)
    ensures d == c
  {
    hide EncodesConfig, Decodes;
    assert d.machineId == c.machineId by { OwnIdSurvives(c, msg, d); }
    forall id
      ensures id in d.machines <==> id in c.machines
      ensures id in d.machines ==> d.machines[id] == c.machines[id]
    {
      MachineSurvives(c, msg, d, id);
    }
    forall id
      ensures id in d.nodes <==> id in c.nodes
      ensures id in d.nodes ==> d.nodes[id] == c.nodes[id]
    {
      NodeSurvives(c, msg, d, id);
    }
    assert d.machines == c.machines && d.nodes == c.nodes;
  }

  lemma OwnIdSurvives(c: Config, msg: ConfigMsg, d: Config)
    requires KeyedByOwnIds(c) && EncodesConfig(c, msg) && Decodes(msg, d)
    ensures d.machineId == c.machineId
  {
    hide DecodeMachine, OwnMsg;
    OwnAt(c, msg);
  }

  /** A message without the machine it is for gives that machine the number 0,
      no addresses and no nodes. */
  lemma WithoutOwnMachine(msg: ConfigMsg, c: Config)
    requires Decodes(msg, c) && forall u :: u in msg.machineMap ==> FromWire(u) != FromWire(msg.machineId)
    ensures c.machineId == 0 && 0 in c.machines && c.machines[0] == MachineRecord(0, "", "", [])
  {
    IntThroughWire(FromWire(msg.machineId), 0);
    IntThroughWire(0, 0);
  }

  // ----- The conversions -----

  method MachineFromMessage(msg: MachineMsg) returns (m: Machine)
    ensures fresh(m) && m.Record() == DecodeMachine(msg)
  {
    m := new Machine(FromWire(msg.id));
    m.SetIp(msg.ip);
    m.SetBridgeIp(msg.bridgeIp);
    for i := 0 to |msg.nodes|
      invariant m.Record() == DecodeMachine(msg).(nodeIds := UnwireSeq(msg.nodes)[..i])
    {
      m.AddNodeId(FromWire(msg.nodes[i]));
    }
  }

  method MessageFromMachine(m: Machine) returns (msg: MachineMsg)
    ensures msg == EncodeMachine(m.Record())
  {
    msg := MachineMsg(ToWire(m.id), m.ip, m.bridgeIp, []);
    for i := 0 to |m.nodes|
      invariant msg == EncodeMachine(m.Record()).(nodes := WireSeq(m.nodes)[..i])
    {
      msg := msg.(nodes := msg.nodes + [ToWire(m.nodes[i])]);
    }
  }

  method RuntimeNodeFromMessage(msg: RuntimeNodeMsg) returns (n: Option<RuntimeNode>)
    ensures n.None? <==> DecodeNode(msg).None?
    ensures n.Some? ==> fresh(n.value) && Some(n.value.Record()) == DecodeNode(msg)
  {
    var nf := DecodeNF(msg.nf);
    if nf.None? {
      return None;
    }
    var rn := new RuntimeNode(FromWire(msg.id), nf.value);
    rn.inport := FromWire(msg.inport);
    rn.outport := FromWire(msg.outport);
    rn.machineId := FromWire(msg.machineId);
    rn.ip := msg.ip;
    for i := 0 to |msg.neighbors|
      invariant rn.Record() == DecodeNode(msg).value.(neighbors := UnwireSeq(msg.neighbors)[..i])
    {
      rn.AddNeighbor(FromWire(msg.neighbors[i]));
    }
    assert UnwireSeq(msg.neighbors)[..|msg.neighbors|] == UnwireSeq(msg.neighbors);
    n := Some(rn);
  }

  method MessageFromRuntimeNode(n: RuntimeNode) returns (msg: RuntimeNodeMsg)
    ensures msg == EncodeNode(n.Record())
  {
    msg := RuntimeNodeMsg(ToWire(n.id), EncodeNF(n.nf), [], ToWire(n.inport), ToWire(n.outport), ToWire(n.machineId), n.ip);
    for i := 0 to |n.neighbors|
      invariant msg == EncodeNode(n.Record()).(neighbors := WireSeq(n.neighbors)[..i])
    {
      msg := msg.(neighbors := msg.neighbors + [ToWire(n.neighbors[i])]);
    }
  }

  /** The machines of the message, the own one first. */
  method MachinesFromMessage(msg: ConfigMsg) returns (mc: MachineConfigurator)
    ensures fresh(mc) && mc.nodeMap == map[] && mc.machineId == DecodeMachine(OwnMsg(msg)).id
    ensures MachinesDone(msg, mc.Contents().machines, {})
  {
    hide DecodeMachine, FromWire, ToWire;
    var machineId := FromWire(msg.machineId);
    var own := MachineFromMessage(OwnMsg(msg));
    mc := new MachineConfigurator(own);
    assert mc.Contents().machines == map[own.id := own.Record()];
    var todo := msg.machineMap.Keys;
    while todo != {}
      invariant todo <= msg.machineMap.Keys
      invariant mc.nodeMap == map[] && fresh(mc)
      invariant mc.machineId == DecodeMachine(OwnMsg(msg)).id
      invariant MachinesDone(msg, mc.Contents().machines, todo)
      decreases todo
    {
      assert Pick(todo) in todo;
      var u :| u in todo;
      if FromWire(u) != machineId {
        var m := MachineFromMessage(msg.machineMap[u]);
        assert Other(msg, u) && m.Record().id == m.id;
        MachineDone(msg, mc.Contents().machines, todo, u);
        mc.AddMachine(m);
      }
      todo := todo - {u};
    }
  }

  /** The state of decoding, with the messages still to do. */
  ghost predicate MachinesDone(msg: ConfigMsg, machines: map<int32, MachineRecord>, todo: set<uint64>) {
    var own := DecodeMachine(OwnMsg(msg));
    own.id in machines && machines[own.id] == own
    && (forall u :: Other(msg, u) && u !in todo ==> DecodeMachine(msg.machineMap[u]).id in machines)
    && (forall id :: id in machines && id != own.id ==> FromSome(msg, machines[id], id))
  }

  lemma MachineDone(msg: ConfigMsg, machines: map<int32, MachineRecord>, todo: set<uint64>, u: uint64)
    requires MachinesDone(msg, machines, todo) && Other(msg, u)
    ensures var m := DecodeMachine(msg.machineMap[u]);
      MachinesDone(msg, Inserted(machines, m.id, m), todo - {u})
  {
    hide DecodeMachine, FromWire, ToWire, OwnMsg;
    var m := DecodeMachine(msg.machineMap[u]);
    assert FromSome(msg, m, m.id);
  }

  ghost predicate NodesDone(msg: ConfigMsg, nodes: map<int32, NodeRecord>, todo: set<uint64>) {
    (forall u :: u in msg.nodeMap && u !in todo ==>
       DecodeNode(msg.nodeMap[u]).Some? && DecodeNode(msg.nodeMap[u]).value.id in nodes)
    && (forall id :: id in nodes ==> NodeFromSome(msg, nodes[id], id))
  }

  lemma NodeDone(msg: ConfigMsg, nodes: map<int32, NodeRecord>, todo: set<uint64>, u: uint64)
    requires NodesDone(msg, nodes, todo) && u in msg.nodeMap && DecodeNode(msg.nodeMap[u]).Some?
    ensures var n := DecodeNode(msg.nodeMap[u]).value;
      NodesDone(msg, Inserted(nodes, n.id, n), todo - {u})
  {
    hide DecodeNode;
    var n := DecodeNode(msg.nodeMap[u]).value;
    assert NodeFromSome(msg, n, n.id);
  }

  /** Fails, as the source throws, exactly when some node's function is undeclared. */
  method ConfiguratorFromMessage(msg: ConfigMsg) returns (mc: Option<MachineConfigurator>)
    ensures mc.None? <==> exists u :: u in msg.nodeMap && DecodeNode(msg.nodeMap[u]).None?
    ensures mc.Some? ==> fresh(mc.value) && Decodes(msg, mc.value.Contents())
  {
    hide *;
    var c := MachinesFromMessage(msg);
    ghost var machines := c.Contents().machines;
    NoNodesYet(c, msg);
    var todo := msg.nodeMap.Keys;
    while todo != {}
      invariant todo <= msg.nodeMap.Keys
      invariant fresh(c) && c.Contents().machines == machines && c.machineId == DecodeMachine(OwnMsg(msg)).id
      invariant NodesDone(msg, c.Contents().nodes, todo)
      decreases todo
    {
      assert Pick(todo) in todo;
      var u :| u in todo;
      var n := RuntimeNodeFromMessage(msg.nodeMap[u]);
      if n.None? {
        return None;
      }
      RecordId(n.value);
      NodeDone(msg, c.Contents().nodes, todo, u);
      c.AddNode(n.value);
      todo := todo - {u};
    }
    AllDecoded(c, msg);
    mc := Some(c);
  }

  lemma RecordId(n: RuntimeNode)
    ensures n.Record().id == n.id
  {
  }

  lemma NoNodesYet(c: MachineConfigurator, msg: ConfigMsg)
    requires c.nodeMap == map[]
    ensures NodesDone(msg, c.Contents().nodes, msg.nodeMap.Keys)
  {
  }

  lemma AllDecoded(c: MachineConfigurator, msg: ConfigMsg)
    requires c.machineId == DecodeMachine(OwnMsg(msg)).id
    requires MachinesDone(msg, c.Contents().machines, {}) && NodesDone(msg, c.Contents().nodes, {})
    ensures Decodes(msg, c.Contents()) && forall u :: u in msg.nodeMap ==> DecodeNode(msg.nodeMap[u]).Some?
  {
    hide DecodeNode, DecodeMachine, OwnMsg;
  }

  method MachineMessages(mc: MachineConfigurator) returns (machineMap: map<uint64, MachineMsg>)
    ensures Encodes(mc.Contents().machines, machineMap, EncodeMachine)
  {
    machineMap := map[];
    var todo := mc.machineMap.Keys;
    ghost var machines := mc.Contents().machines;
    while todo != {}
      invariant todo <= mc.machineMap.Keys
      invariant Encodes(machines - todo, machineMap, EncodeMachine)
      decreases todo
    {
      assert Pick(todo) in todo;
      var k :| k in todo;
      var m := MessageFromMachine(mc.machineMap[k]);
      EncodesMore(machines, todo, machineMap, EncodeMachine, k);
      machineMap := machineMap[ToWire(k) := m];
      todo := todo - {k};
    }
    assert machines - {} == machines;
  }

  method NodeMessages(mc: MachineConfigurator) returns (nodeMap: map<uint64, RuntimeNodeMsg>)
    ensures Encodes(mc.Contents().nodes, nodeMap, EncodeNode)
  {
    nodeMap := map[];
    var todo := mc.nodeMap.Keys;
    ghost var nodes := mc.Contents().nodes;
    while todo != {}
      invariant todo <= mc.nodeMap.Keys
      invariant Encodes(nodes - todo, nodeMap, EncodeNode)
      decreases todo
    {
      assert Pick(todo) in todo;
      var k :| k in todo;
      var n := MessageFromRuntimeNode(mc.nodeMap[k]);
      EncodesMore(nodes, todo, nodeMap, EncodeNode, k);
      nodeMap := nodeMap[ToWire(k) := n];
      todo := todo - {k};
    }
    assert nodes - {} == nodes;
  }

  method MessageFromConfigurator(mc: MachineConfigurator) returns (msg: ConfigMsg)
    ensures EncodesConfig(mc.Contents(), msg)
  {
    var machineMap := MachineMessages(mc);
    var nodeMap := NodeMessages(mc);
    msg := ConfigMsg(ToWire(mc.machineId), machineMap, nodeMap);
  }

  lemma EncodesMore<V, M>(m: map<int32, V>, todo: set<int32>, msgs: map<uint64, M>, encode: V -> M, k: int32)
    requires k in todo && todo <= m.Keys && Encodes(m - todo, msgs, encode)
    ensures Encodes(m - (todo - {k}), msgs[ToWire(k) := encode(m[k])], encode)
  {
    IntThroughWire(k, 0);
    hide FromWire, ToWire;
  }

  /** A configuration survives being sent. */
  method Transmit(mc: MachineConfigurator) returns (received: Option<MachineConfigurator>)
    requires KeyedByOwnIds(mc.Contents())
    ensures received.Some? && fresh(received.value) && received.value.Contents() == mc.Contents()
  {
    hide EncodesConfig, Decodes, DecodeNode;
    ghost var c := mc.Contents();
    var msg := MessageFromConfigurator(mc);
    forall u | u in msg.nodeMap
      ensures DecodeNode(msg.nodeMap[u]).Some?
    {
      SentNode(c, msg, u);
    }
    received := ConfiguratorFromMessage(msg);
    ConfigRoundTrip(c, msg, received.value.Contents());
  }

  lemma SentNode(c: Config, msg: ConfigMsg, u: uint64)
    requires EncodesConfig(c, msg) && u in msg.nodeMap
    ensures DecodeNode(msg.nodeMap[u]).Some?
  {
    NodeAt(c, msg, FromWire(u));
  }
}

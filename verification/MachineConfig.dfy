/** What the orchestrator tells every machine: all machines and all nodes.

    The machines, nodes and configurations are objects whose maps are filled
    one entry at a time, and each has a record of its contents as a value. The
    message a configuration travels in has integers that are 64 bits wide and
    unsigned, where the program has ints. */
module MachineConfig {
  import opened ActionTable

  newtype int32 = x: int | -0x8000_0000 <= x < 0x8000_0000

  newtype uint64 = x: int | 0 <= x < 0x1_0000_0000_0000_0000

  /** An int assigned to an unsigned 64-bit field. */
  function ToWire(x: int32): uint64 {
    if x < 0 then (x as int + 0x1_0000_0000_0000_0000) as uint64 else x as uint64
  }

  /** An unsigned 64-bit field assigned to an int: the low 32 bits, signed. */
  function FromWire(u: uint64): int32 {
    var low := u as int % 0x1_0000_0000;
    (if low < 0x8000_0000 then low else low - 0x1_0000_0000) as int32
  }

  /** Every int survives the trip; a 64-bit value survives the opposite trip
      exactly when it is the image of some int. */
  lemma IntThroughWire(x: int32, u: uint64)
    ensures FromWire(ToWire(x)) == x
    ensures ToWire(FromWire(u)) == u <==> u < 0x8000_0000 || u >= 0xffff_ffff_8000_0000
  {
    if x < 0 {
      assert (x as int + 0x1_0000_0000_0000_0000) % 0x1_0000_0000 == x as int + 0x1_0000_0000;
    }
  }

  // ----- Entities and their values -----

  datatype MachineRecord = MachineRecord(id: int32, ip: string, bridgeIp: string, nodeIds: seq<int32>)

  datatype NodeRecord = NodeRecord(id: int32, nf: NF, neighbors: seq<int32>, inport: int32, outport: int32, machineId: int32, ip: string)

  /** A machine's view of the service: its own id, all machines, all nodes. */
  datatype Config = Config(machineId: int32, machines: map<int32, MachineRecord>, nodes: map<int32, NodeRecord>)

  class Machine {
    const id: int32
    var ip: string
    var bridgeIp: string
    var nodes: seq<int32>

    function Record(): MachineRecord
      reads this
    {
      MachineRecord(id, ip, bridgeIp, nodes)
    }

    constructor (id: int32)
      ensures Record() == MachineRecord(id, "", "", [])
    {
      this.id := id;
      ip, bridgeIp, nodes := "", "", [];
    }

    method SetIp(ip: string)
      modifies `ip
      ensures Record() == old(Record()).(ip := ip)
    {
      this.ip := ip;
    }

    method SetBridgeIp(bridgeIp: string)
      modifies `bridgeIp
      ensures Record() == old(Record()).(bridgeIp := bridgeIp)
    {
      this.bridgeIp := bridgeIp;
    }

    method AddNodeId(n: int32)
      modifies `nodes
      ensures Record() == old(Record()).(nodeIds := old(nodes) + [n])
    {
      nodes := nodes + [n];
    }
  }

  class RuntimeNode {
    const id: int32
    const nf: NF
    var neighbors: seq<int32>
    var inport: int32
    var outport: int32
    var machineId: int32
    var ip: string

    function Record(): NodeRecord
      reads this
    {
      NodeRecord(id, nf, neighbors, inport, outport, machineId, ip)
    }

    /** The machine id is left as it happens to be. */
    constructor (id: int32, nf: NF)
      ensures Record() == NodeRecord(id, nf, [], 0, 0, machineId, "")
    {
      this.id, this.nf := id, nf;
      neighbors, inport, outport, ip := [], 0, 0, "";
    }

    method AddNeighbor(n: int32)
      modifies `neighbors
      ensures Record() == old(Record()).(neighbors := old(neighbors) + [n])
    {
      neighbors := neighbors + [n];
    }
  }

  class MachineConfigurator {
    const machineId: int32
    var machineMap: map<int32, Machine>
    var nodeMap: map<int32, RuntimeNode>

    function Contents(): Config
      reads this, machineMap.Values, nodeMap.Values
    {
      Config(machineId, map k | k in machineMap :: machineMap[k].Record(), map k | k in nodeMap :: nodeMap[k].Record())
    }

    constructor (m: Machine)
      ensures Contents() == Config(m.id, map[m.id := m.Record()], map[])
      ensures machineMap == map[m.id := m] && nodeMap == map[]
    {
      machineId := m.id;
      machineMap, nodeMap := map[m.id := m], map[];
    }

    /** Insertion never overwrites. */
    method AddMachine(m: Machine)
      modifies `machineMap
      ensures machineMap == if m.id in old(machineMap) then old(machineMap) else old(machineMap)[m.id := m]
      ensures Contents() == Config(machineId, Inserted(old(Contents()).machines, m.id, m.Record()), old(Contents()).nodes)
    {
      if m.id !in machineMap {
        machineMap := machineMap[m.id := m];
      }
    }

    method AddNode(n: RuntimeNode)
      modifies `nodeMap
      ensures nodeMap == if n.id in old(nodeMap) then old(nodeMap) else old(nodeMap)[n.id := n]
      ensures Contents() == Config(machineId, old(Contents()).machines, Inserted(old(Contents()).nodes, n.id, n.Record()))
    {
      if n.id !in nodeMap {
        nodeMap := nodeMap[n.id := n];
      }
    }

    /** The known nodes of a machine, in the machine's order; none for an
        unknown machine. */
    method GetNodesForMachine(id: int32) returns (result: seq<RuntimeNode>)
      ensures forall i :: 0 <= i < |result| ==> result[i] in nodeMap.Values
      ensures Records(result) == NodesOf(Contents(), id)
    {
      result := [];
      if id in machineMap {
        var ids := machineMap[id].nodes;
        for i := 0 to |ids|
          invariant forall j :: 0 <= j < |result| ==> result[j] in nodeMap.Values
          invariant Records(result) == Known(ids[..i], Contents().nodes)
        {
          assert ids[..i + 1] == ids[..i] + [ids[i]];
          KnownAppend(ids[..i], ids[i], Contents().nodes);
          if ids[i] in nodeMap {
            result := result + [nodeMap[ids[i]]];
          }
        }
        assert ids[..|ids|] == ids;
      }
    }
  }

  function Inserted<T>(m: map<int32, T>, k: int32, v: T): map<int32, T> {
    if k in m then m else m[k := v]
  }

  function Records(nodes: seq<RuntimeNode>): (r: seq<NodeRecord>)
    reads nodes
    ensures |r| == |nodes| && forall i :: 0 <= i < |r| ==> r[i] == nodes[i].Record()
  {
    seq(|nodes|, i requires 0 <= i < |nodes| reads nodes => nodes[i].Record())
  }

  function Known(ids: seq<int32>, nodes: map<int32, NodeRecord>): seq<NodeRecord> {
    if ids == [] then [] else (if ids[0] in nodes then [nodes[ids[0]]] else []) + Known(ids[1..], nodes)
  }

  lemma {:induction false} KnownAppend(ids: seq<int32>, id: int32, nodes: map<int32, NodeRecord>)
    ensures Known(ids + [id], nodes) == Known(ids, nodes) + if id in nodes then [nodes[id]] else []
  {
    if ids == [] {
      assert [] + [id] == [id] && [id][1..] == [];
      assert Known([], nodes) == [];
    } else {
      KnownAppend(ids[1..], id, nodes);
      var first := if ids[0] in nodes then [nodes[ids[0]]] else [];
      var last := if id in nodes then [nodes[id]] else [];
      assert (ids + [id])[0] == ids[0] && (ids + [id])[1..] == ids[1..] + [id];
      assert Known(ids + [id], nodes) == first + (Known(ids[1..], nodes) + last);
      assert first + (Known(ids[1..], nodes) + last) == (first + Known(ids[1..], nodes)) + last;
    }
  }

  function NodesOf(c: Config, machine: int32): seq<NodeRecord> {
    if machine in c.machines then Known(c.machines[machine].nodeIds, c.nodes) else []
  }
}

/** What every machine works out for itself.

    From the configuration it has received a machine gives its own nodes the
    addresses of containers on its bridge, and everyone else's the address of
    their machine's forwarder with a port for each node. It then writes its
    forwarder's table and the address list each function is started with. */
module Configure {
  import opened MergeSpec
  import opened ActionTable
  import opened AddressText
  import opened Forwarder
  import opened MachineConfig

  const CONTAINER_PORT := 8000

  /** The port on which a node's forwarder listens. */
  function ForwarderPort(id: int32): int {
    CONTAINER_PORT - id as int - 1
  }

  /** The merger's port for a leaf. */
  function MergerPort(id: int32): int {
    CONTAINER_PORT + id as int + 1
  }

  /** For ids that are not negative the three kinds of port never meet, and
      different nodes have different ones; a forwarder port is a real port
      exactly up to id 7998. */
  lemma PortsApart(a: int32, b: int32)
    requires a >= 0 && b >= 0
    ensures ForwarderPort(a) < CONTAINER_PORT < MergerPort(b)
    ensures ForwarderPort(a) == ForwarderPort(b) || MergerPort(a) == MergerPort(b) ==> a == b
    ensures ForwarderPort(a) >= 1 <==> a <= 7998
  {
  }

  // ----- Container addresses -----

  /** The text up to and with the last dot, or nothing. */
  function ThroughLastDot(s: string): (r: string)
    ensures |r| <= |s| && r == s[..|r|] && (r != [] ==> r[|r| - 1] == '.')
    ensures forall i :: |r| <= i < |s| ==> s[i] != '.'
  {
    if s == [] then [] else if s[|s| - 1] == '.' then s else ThroughLastDot(s[..|s| - 1])
  }

  function Atoi(s: string): int {
    match Leading(s)
    case None => 0
    case Some(n) => n
  }

  /** `atoi` reads the number the text begins with, and 0 without one. */
  lemma AtoiExactly(s: string)
    ensures forall n :: BeginsWith(s, n) ==> Atoi(s) == n
    ensures (forall n :: !BeginsWith(s, n)) ==> Atoi(s) == 0
  {
    hide Leading, Positional, Shaped;
    if Leading(s).Some? {
      var spaces, sign, digits, rest := LeadsShaped(s);
      ShapedLeads(s, spaces, sign, digits, rest);
      ShapedBegins(s, spaces, sign, digits, rest);
    }
    forall n | BeginsWith(s, n)
      ensures Atoi(s) == n
    {
      var spaces, sign, digits, rest := BeginsShaped(s, n);
      ShapedLeads(s, spaces, sign, digits, rest);
    }
  }

  /** The number after the last dot of the bridge's address. */
  function BridgeHost(bridgeIp: string): int {
    Atoi(bridgeIp[|ThroughLastDot(bridgeIp)|..])
  }

  /** The i-th container's address: the numbers after the bridge's own. */
  function ContainerIp(bridgeIp: string, i: nat): string {
    ThroughLastDot(bridgeIp) + ToString(BridgeHost(bridgeIp) + 1 + i)
  }

  /** Different containers of a machine have different addresses. */
  lemma ContainerIpsDiffer(bridgeIp: string, i: nat, j: nat)
    requires INT_MIN <= BridgeHost(bridgeIp) + 1 + i <= INT_MAX && INT_MIN <= BridgeHost(bridgeIp) + 1 + j <= INT_MAX
    requires ContainerIp(bridgeIp, i) == ContainerIp(bridgeIp, j)
    ensures i == j
  {
    hide ThroughLastDot, BridgeHost, ToString;
    var prefix := ThroughLastDot(bridgeIp);
    var s, t := ToString(BridgeHost(bridgeIp) + 1 + i), ToString(BridgeHost(bridgeIp) + 1 + j);
    assert (prefix + s)[|prefix|..] == s && (prefix + t)[|prefix|..] == t;
    ToStringInjective(BridgeHost(bridgeIp) + 1 + i, BridgeHost(bridgeIp) + 1 + j);
  }

  // ----- Specification -----

  function OwnNodes(c: Config): seq<NodeRecord> {
    NodesOf(c, c.machineId)
  }

  /** No node is on two machines, or twice on one. */
  ghost predicate PlacedOnce(c: Config) {
    (forall k, l, i, j :: 0 <= i < |NodesOf(c, k)| && 0 <= j < |NodesOf(c, l)| && NodesOf(c, k)[i].id == NodesOf(c, l)[j].id ==> k == l && i == j)
    && forall k :: k in c.machines ==> c.machines[k].id == k
  }

  type Ports = map<int32, int>
  type Networks = map<int32, string>

  ghost predicate Has(networks: Networks, ports: Ports, id: int32, a: Address) {
    id in networks && id in ports && networks[id] == a.ip && ports[id] == a.port
  }

  /** The address machine c uses for the i-th node of machine k. */
  function NodeAddress(c: Config, k: int32, i: nat): Address
    requires c.machineId in c.machines && k in c.machines && i < |NodesOf(c, k)|
  {
    if k == c.machineId then Address(ContainerIp(c.machines[k].bridgeIp, i), CONTAINER_PORT)
    else Address(c.machines[k].ip, ForwarderPort(NodesOf(c, k)[i].id))
  }

  /** Every node of the listed machines has the address it should have. */
  ghost predicate Assigned(c: Config, networks: Networks, ports: Ports, machines: set<int32>)
    requires c.machineId in c.machines
  {
    forall k, i :: k in machines && k in c.machines && 0 <= i < |NodesOf(c, k)| ==>
      Has(networks, ports, NodesOf(c, k)[i].id, NodeAddress(c, k, i))
  }

  /** An id without an entry reads as the empty address and port 0. */
  function LookUp(networks: Networks, ports: Ports, id: int32): Address {
    Address(if id in networks then networks[id] else "", if id in ports then ports[id] else 0)
  }

  lemma UnknownAddress(networks: Networks, ports: Ports, id: int32)
    requires id !in networks && id !in ports
    ensures AddressToString(LookUp(networks, ports, id)) == ":0"
  {
    assert ToString(0) == "0";
  }

  /** The lines of the forwarder's table for a machine's nodes. */
  function Lines(nodes: seq<NodeRecord>, networks: Networks, ports: Ports): (lines: seq<string>)
    ensures |lines| == |nodes|
    ensures forall i :: 0 <= i < |lines| ==>
              lines[i] == TableLine(ForwarderPort(nodes[i].id), Address(LookUp(networks, ports, nodes[i].id).ip, CONTAINER_PORT))
  {
    seq(|nodes|, i requires 0 <= i < |nodes| =>
      TableLine(ForwarderPort(nodes[i].id), Address(LookUp(networks, ports, nodes[i].id).ip, CONTAINER_PORT)))
  }

  /** What a function is started with: the merger's port for a leaf, an address for each neighbour. */
  function Arguments(n: NodeRecord, networks: Networks, ports: Ports, mergerIp: string): seq<string> {
    (if n.neighbors == [] && n.nf != pktgen then [AddressToString(Address(mergerIp, MergerPort(n.id)))] else [])
    + seq(|n.neighbors|, i requires 0 <= i < |n.neighbors| => AddressToString(LookUp(networks, ports, n.neighbors[i])))
  }

  lemma OwnId(c: Config, k: int32)
    requires PlacedOnce(c) && k in c.machines
    ensures c.machines[k].id == k
  {
  }

  /** One more machine done, nothing else disturbed. */
  lemma RemoteAssigned(c: Config, k: int32, done: set<int32>, networks: Networks, ports: Ports, networks': Networks,
                       ports': Ports)
    requires c.machineId in c.machines && PlacedOnce(c) && k in c.machines && k != c.machineId && k !in done
    requires Assigned(c, networks, ports, done)
    requires forall i :: 0 <= i < |NodesOf(c, k)| ==>
               Has(networks', ports', NodesOf(c, k)[i].id, Address(c.machines[k].ip, ForwarderPort(NodesOf(c, k)[i].id)))
    requires forall id, a :: (forall i :: 0 <= i < |NodesOf(c, k)| ==> NodesOf(c, k)[i].id != id) && Has(networks, ports, id, a) ==>
               Has(networks', ports', id, a)
    ensures Assigned(c, networks', ports', done + {k})
  {
    hide NodesOf, ContainerIp;
    forall l, i | l in done + {k} && l in c.machines && 0 <= i < |NodesOf(c, l)|
      ensures Has(networks', ports', NodesOf(c, l)[i].id, NodeAddress(c, l, i))
    {
      if l != k {
        assert Has(networks, ports, NodesOf(c, l)[i].id, NodeAddress(c, l, i));
      }
    }
  }

  /** What the contents say of the objects. */
  lemma Machines(conf: MachineConfigurator)
    ensures conf.Contents().machineId == conf.machineId && conf.Contents().machines.Keys == conf.machineMap.Keys
    ensures forall k :: k in conf.machineMap ==>
              conf.Contents().machines[k].bridgeIp == conf.machineMap[k].bridgeIp
              && conf.Contents().machines[k].ip == conf.machineMap[k].ip
              && conf.Contents().machines[k].id == conf.machineMap[k].id
  {
  }

  lemma RecordIds(nodes: seq<RuntimeNode>)
    ensures |Records(nodes)| == |nodes| && forall i :: 0 <= i < |nodes| ==> Records(nodes)[i].id == nodes[i].id
  {
  }

  function Ids(nodes: seq<RuntimeNode>): (ids: seq<int32>)
    reads nodes
    ensures |ids| == |nodes| && forall i :: 0 <= i < |ids| ==> ids[i] == nodes[i].id
    ensures |Records(nodes)| == |nodes| && forall i :: 0 <= i < |nodes| ==> Records(nodes)[i].id == ids[i]
  {
    seq(|nodes|, i requires 0 <= i < |nodes| reads nodes => nodes[i].id)
  }

  lemma OwnNodesAre(c: Config)
    ensures OwnNodes(c) == NodesOf(c, c.machineId)
  {
  }

  /** No later id is the same as the i-th, up to n. */
  ghost predicate LastIn(ids: seq<int32>, i: nat, n: nat) {
    i < n <= |ids| && forall j :: i < j < n ==> ids[j] != ids[i]
  }

  lemma StillLast(ids: seq<int32>, n: nat, next: nat)
    requires n < |ids| && next == n + 1
    ensures forall i: nat :: LastIn(ids, i, next) ==> i == n || (LastIn(ids, i, n) && ids[i] != ids[n])
  {
  }

  lemma NoneLast(ids: seq<int32>)
    ensures forall i: nat :: !LastIn(ids, i, 0)
  {
  }

  /** The own nodes' ids differ if no node is placed twice. */
  lemma OwnIdsDiffer(c: Config, ids: seq<int32>)
    requires PlacedOnce(c) && |OwnNodes(c)| == |ids| && forall i :: 0 <= i < |ids| ==> OwnNodes(c)[i].id == ids[i]
    ensures forall i: nat :: i < |ids| ==> LastIn(ids, i, |ids|)
  {
    hide NodesOf;
    assert forall i, j :: 0 <= i < j < |ids| ==> OwnNodes(c)[i].id != OwnNodes(c)[j].id;
  }

  /** Then each of them has its container's address. */
  lemma OwnAssigned(c: Config, ids: seq<int32>, networks: Networks, ports: Ports, prefix: string, host: int)
    requires c.machineId in c.machines && |OwnNodes(c)| == |ids| && forall i :: 0 <= i < |ids| ==> OwnNodes(c)[i].id == ids[i]
    requires prefix == ThroughLastDot(c.machines[c.machineId].bridgeIp) && host == BridgeHost(c.machines[c.machineId].bridgeIp) + 1
    requires forall i: nat :: i < |ids| ==> OwnHas(networks, ports, ids, i, prefix, host)
    ensures Assigned(c, networks, ports, {c.machineId})
  {
    hide NodesOf, Has, ThroughLastDot, BridgeHost, ToString;
    forall i | 0 <= i < |NodesOf(c, c.machineId)|
      ensures Has(networks, ports, NodesOf(c, c.machineId)[i].id, NodeAddress(c, c.machineId, i))
    {
      assert OwnNodes(c)[i].id == ids[i];
      assert OwnHas(networks, ports, ids, i, prefix, host);
    }
  }

  ghost predicate OwnHas(networks: Networks, ports: Ports, ids: seq<int32>, i: nat, prefix: string, host: int)
    requires i < |ids|
  {
    Has(networks, ports, ids[i], Address(prefix + ToString(host + i), CONTAINER_PORT))
  }

  lemma NowHas(networks: Networks, ports: Ports, ids: seq<int32>, n: nat, prefix: string, host: int, text: string)
    requires n < |ids| && text == ToString(host + n)
    ensures OwnHas(networks[ids[n] := prefix + text], ports[ids[n] := CONTAINER_PORT], ids, n, prefix, host)
    ensures forall i: nat :: i < |ids| && ids[i] != ids[n] && OwnHas(networks, ports, ids, i, prefix, host) ==>
              OwnHas(networks[ids[n] := prefix + text], ports[ids[n] := CONTAINER_PORT], ids, i, prefix, host)
  {
    hide ToString;
  }

  // ----- The program -----

  class Configure {
    const mergerIp: string
    var nodeidToPort: Ports
    var nodeidToNetwork: Networks
    var forwarderTxt: seq<string>

    constructor (mergerIp: string)
      ensures this.mergerIp == mergerIp && nodeidToPort == map[] && nodeidToNetwork == map[] && forwarderTxt == []
    {
      this.mergerIp := mergerIp;
      nodeidToPort, nodeidToNetwork, forwarderTxt := map[], map[], [];
    }

    /** The machine's own nodes, numbered on from the bridge. */
    method AssignOwn(nodes: seq<RuntimeNode>, prefix: string, host: int)
      modifies `nodeidToPort, `nodeidToNetwork
      ensures forall i: nat :: LastIn(Ids(nodes), i, |nodes|) ==>
                i < |Ids(nodes)| && OwnHas(nodeidToNetwork, nodeidToPort, Ids(nodes), i, prefix, host)
    {
      hide *;
      var ipInx := host;
      ghost var ids := Ids(nodes);
      NoneLast(ids);
      for i := 0 to |nodes|
        invariant ipInx == host + i && ids == Ids(nodes)
        invariant forall k: nat :: LastIn(ids, k, i) ==> k < |ids| && OwnHas(nodeidToNetwork, nodeidToPort, ids, k, prefix, host)
      {
        StillLast(ids, i, i + 1);
        assert nodes[i].id == ids[i];
        ghost var networks, ports := nodeidToNetwork, nodeidToPort;
        NowHas(networks, ports, ids, i, prefix, host, ToString(ipInx));
        nodeidToNetwork := nodeidToNetwork[nodes[i].id := prefix + ToString(ipInx)];
        nodeidToPort := nodeidToPort[nodes[i].id := CONTAINER_PORT];
        ipInx := ipInx + 1;
      }
    }

    /** Another machine's nodes are reached through its forwarder. */
    method AssignRemote(nodes: seq<RuntimeNode>, ip: string)
      modifies `nodeidToPort, `nodeidToNetwork
      ensures forall i :: 0 <= i < |nodes| ==>
                Has(nodeidToNetwork, nodeidToPort, nodes[i].id, Address(ip, ForwarderPort(nodes[i].id)))
      ensures forall id, a :: (forall i :: 0 <= i < |nodes| ==> nodes[i].id != id) && old(Has(nodeidToNetwork, nodeidToPort, id, a)) ==>
                Has(nodeidToNetwork, nodeidToPort, id, a)
    {
      for i := 0 to |nodes|
        invariant forall k :: 0 <= k < i ==>
                    Has(nodeidToNetwork, nodeidToPort, nodes[k].id, Address(ip, ForwarderPort(nodes[k].id)))
        invariant forall id, a :: (forall k :: 0 <= k < |nodes| ==> nodes[k].id != id) && old(Has(nodeidToNetwork, nodeidToPort, id, a)) ==>
                    Has(nodeidToNetwork, nodeidToPort, id, a)
      {
        nodeidToNetwork := nodeidToNetwork[nodes[i].id := ip];
        nodeidToPort := nodeidToPort[nodes[i].id := ForwarderPort(nodes[i].id)];
      }
    }

    /** Every node of the service gets an address: the right one, if the
        machines' node lists do not overlap. */
    method SetupBridgePorts(conf: MachineConfigurator)
      requires conf.machineId in conf.machineMap
      modifies `nodeidToPort, `nodeidToNetwork
      ensures PlacedOnce(conf.Contents()) ==> Assigned(conf.Contents(), nodeidToNetwork, nodeidToPort, conf.machineMap.Keys)
    {
      hide *;
      ghost var c := conf.Contents();
      Machines(conf);
      AssignBridge(conf);
      var todo := conf.machineMap.Keys - {conf.machineId};
      ghost var done := {conf.machineId};
      while todo != {}
        invariant done !! todo && done + todo == conf.machineMap.Keys && conf.machineId in done
        invariant conf.Contents() == c && (PlacedOnce(c) ==> Assigned(c, nodeidToNetwork, nodeidToPort, done))
        decreases todo
      {
        assert Pick(todo) in todo;
        var k :| k in todo;
        AssignMachine(conf, k, done);
        todo := todo - {k};
        done := done + {k};
      }
      assert done == conf.machineMap.Keys;
    }

    method AssignBridge(conf: MachineConfigurator)
      requires conf.machineId in conf.machineMap
      modifies `nodeidToPort, `nodeidToNetwork
      ensures PlacedOnce(conf.Contents()) ==> Assigned(conf.Contents(), nodeidToNetwork, nodeidToPort, {conf.machineId})
    {
      hide *;
      ghost var c := conf.Contents();
      Machines(conf);
      var bridgeIp := conf.machineMap[conf.machineId].bridgeIp;
      var nodes := conf.GetNodesForMachine(conf.machineId);
      ghost var ids := Ids(nodes);
      var prefix, host := ThroughLastDot(bridgeIp), BridgeHost(bridgeIp) + 1;
      AssignOwn(nodes, prefix, host);
      if PlacedOnce(c) {
        OwnNodesAre(c);
        OwnIdsDiffer(c, ids);
        forall i: nat | i < |ids|
          ensures OwnHas(nodeidToNetwork, nodeidToPort, ids, i, prefix, host)
        {
          assert LastIn(Ids(nodes), i, |nodes|);
        }
        OwnAssigned(c, ids, nodeidToNetwork, nodeidToPort, prefix, host);
      }
    }

    method AssignMachine(conf: MachineConfigurator, k: int32, ghost done: set<int32>)
      requires conf.machineId in conf.machineMap && k in conf.machineMap && k != conf.machineId && k !in done
      modifies `nodeidToPort, `nodeidToNetwork
      ensures PlacedOnce(conf.Contents()) && old(Assigned(conf.Contents(), nodeidToNetwork, nodeidToPort, done)) ==>
                Assigned(conf.Contents(), nodeidToNetwork, nodeidToPort, done + {k})
    {
      hide *;
      ghost var c := conf.Contents();
      ghost var networks, ports := nodeidToNetwork, nodeidToPort;
      Machines(conf);
      var remote := conf.GetNodesForMachine(conf.machineMap[k].id);
      AssignRemote(remote, conf.machineMap[k].ip);
      if PlacedOnce(c) && Assigned(c, networks, ports, done) {
        OwnId(c, k);
        assert Records(remote) == NodesOf(c, k);
        assert forall i :: 0 <= i < |remote| ==> NodesOf(c, k)[i].id == remote[i].id by {
          RecordIds(remote);
        }
        RemoteAssigned(c, k, done, networks, ports, nodeidToNetwork, nodeidToPort);
      }
    }

    /** The forwarder's table gets a line for each own node. */
    method WriteForwarderTable(conf: MachineConfigurator)
      modifies `forwarderTxt
      ensures forwarderTxt == old(forwarderTxt) + Lines(OwnNodes(conf.Contents()), nodeidToNetwork, nodeidToPort)
    {
      hide NodesOf, TableLine, AddressToString;
      ghost var c := conf.Contents();
      var nodes := conf.GetNodesForMachine(conf.machineId);
      assert OwnNodes(c) == Records(nodes);
      ghost var lines := Lines(OwnNodes(c), nodeidToNetwork, nodeidToPort);
      for i := 0 to |nodes|
        invariant forwarderTxt == old(forwarderTxt) + lines[..i]
      {
        var a := Address(LookUp(nodeidToNetwork, nodeidToPort, nodes[i].id).ip, CONTAINER_PORT);
        assert lines[i] == TableLine(ForwarderPort(nodes[i].id), a);
        forwarderTxt := forwarderTxt + [TableLine(ForwarderPort(nodes[i].id), a)];
      }
    }

    /** The addresses a function is started with. */
    method FlowArguments(node: RuntimeNode) returns (args: seq<string>)
      ensures args == Arguments(node.Record(), nodeidToNetwork, nodeidToPort, mergerIp)
    {
      args := [];
      if |node.neighbors| == 0 && node.nf != pktgen {
        args := args + [mergerIp + ":" + ToString(CONTAINER_PORT + node.id as int + 1)];
      }
      ghost var first := args;
      ghost var rest := Arguments(node.Record(), nodeidToNetwork, nodeidToPort, mergerIp)[|first|..];
      for i := 0 to |node.neighbors|
        invariant args == first + rest[..i]
      {
        var a := LookUp(nodeidToNetwork, nodeidToPort, node.neighbors[i]);
        args := args + [a.ip + ":" + ToString(a.port)];
      }
    }
  }
}

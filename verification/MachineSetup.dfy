/** The machines and nodes the orchestrator describes to every machine.

    The placement of the functions says which machine gets which node ids;
    machines and nodes are numbered in the order of the input. What every
    configuration then holds is stated by `Describes`, and the hypotheses of
    the routing follow from it. */
module MachineSetup {
  import opened Packets
  import opened ActionTable
  import AddressText
  import opened MachineConfig
  import opened Configure
  import opened Routing

  const BRIDGE_IP := "173.16.1.1"

  const LIMIT := 0x7fff_ffff

  /** The functions and where each of them goes. */
  datatype Placement = Placement(functions: seq<string>, ips: seq<string>, funcToIp: map<string, string>) {
    predicate Valid() {
      |functions| <= LIMIT && |ips| <= LIMIT
      && (forall f :: f in functions ==> f in funcToIp && funcToIp[f] in ips)
      && (forall k, l :: 0 <= k < l < |ips| ==> ips[k] != ips[l])
    }

    /** The ids of the first n functions that go to the ip, in order. */
    function IdsAt(ip: string, n: nat): (ids: seq<int32>)
      requires Valid() && n <= |functions|
      ensures forall i :: 0 <= i < |ids| ==> 0 <= ids[i] as int < n && funcToIp[functions[ids[i] as int]] == ip
      ensures forall i, j :: 0 <= i < j < |ids| ==> ids[i] < ids[j]
    {
      if n == 0 then [] else IdsAt(ip, n - 1) + if funcToIp[functions[n - 1]] == ip then [(n - 1) as int32] else []
    }

    lemma IdsAtStep(ip: string, n: nat)
      requires Valid() && 0 < n <= |functions|
      ensures IdsAt(ip, n) == IdsAt(ip, n - 1) + if funcToIp[functions[n - 1]] == ip then [(n - 1) as int32] else []
    {
    }

    lemma {:induction false} IdsAtComplete(ip: string, n: nat, f: nat)
      requires Valid() && f < n <= |functions| && funcToIp[functions[f]] == ip
      ensures f as int32 in IdsAt(ip, n)
    {
      hide IdsAt;
      IdsAtStep(ip, n);
      Appended(IdsAt(ip, n - 1), IdsAt(ip, n), (n - 1) as int32);
      if f == n - 1 {
      } else {
        IdsAtComplete(ip, n - 1, f);
      }
    }
  }

  lemma Appended<T>(before: seq<T>, after: seq<T>, x: T)
    requires after == before || after == before + [x]
    ensures forall y :: y in before ==> y in after
    ensures after == before + [x] ==> x in after
  {
  }

  /** A description of the service that fits the placement: machines and nodes
      numbered from 0, every machine with the nodes placed on it. */
  ghost predicate Describes(c: Config, p: Placement, nfs: seq<NF>, neighbors: seq<seq<int32>>)
    requires p.Valid() && |nfs| == |neighbors| == |p.functions|
  {
    DescribesMachines(c.machines, p) && DescribesNodes(c.nodes, nfs, neighbors)
  }

  ghost predicate DescribesMachines(machines: map<int32, MachineRecord>, p: Placement)
    requires p.Valid()
  {
    (forall k :: k in machines <==> 0 <= k as int < |p.ips|)
    && forall k :: k in machines ==> machines[k] == MachineRecord(k, p.ips[k as int], BRIDGE_IP, p.IdsAt(p.ips[k as int], |p.functions|))
  }

  ghost predicate DescribesNodes(nodes: map<int32, NodeRecord>, nfs: seq<NF>, neighbors: seq<seq<int32>>)
    requires |nfs| == |neighbors|
  {
    (forall f :: f in nodes <==> 0 <= f as int < |nfs|)
    && forall f :: f in nodes ==> nodes[f].id == f && nodes[f].nf == nfs[f as int] && nodes[f].neighbors == neighbors[f as int]
  }

  // ----- What follows from the description -----

  lemma {:induction false} AllKnown(ids: seq<int32>, nodes: map<int32, NodeRecord>)
    requires forall i :: 0 <= i < |ids| ==> ids[i] in nodes
    ensures |Known(ids, nodes)| == |ids|
    ensures forall i :: 0 <= i < |ids| ==> Known(ids, nodes)[i] == nodes[ids[i]]
  {
    if ids == [] {
    } else {
      AllKnown(ids[1..], nodes);
    }
  }

  lemma NodesAtMachine(c: Config, p: Placement, nfs: seq<NF>, neighbors: seq<seq<int32>>, k: int32)
    requires p.Valid() && |nfs| == |neighbors| == |p.functions| && Describes(c, p, nfs, neighbors) && k in c.machines
    ensures var ids := p.IdsAt(p.ips[k as int], |p.functions|);
      |NodesOf(c, k)| == |ids| && forall i :: 0 <= i < |ids| ==> ids[i] in c.nodes && NodesOf(c, k)[i] == c.nodes[ids[i]]
  {
    AllKnown(p.IdsAt(p.ips[k as int], |p.functions|), c.nodes);
  }

  /** No node is on two machines. */
  lemma DescribedIsPlacedOnce(c: Config, p: Placement, nfs: seq<NF>, neighbors: seq<seq<int32>>)
    requires p.Valid() && |nfs| == |neighbors| == |p.functions| && Describes(c, p, nfs, neighbors)
    ensures PlacedOnce(c)
  {
    forall k, l, i, j | 0 <= i < |NodesOf(c, k)| && 0 <= j < |NodesOf(c, l)| && NodesOf(c, k)[i].id == NodesOf(c, l)[j].id
      ensures k == l && i == j
    {
      NodesAtMachine(c, p, nfs, neighbors, k);
      NodesAtMachine(c, p, nfs, neighbors, l);
      var idsK, idsL := p.IdsAt(p.ips[k as int], |p.functions|), p.IdsAt(p.ips[l as int], |p.functions|);
      assert idsK[i] == idsL[j];
    }
  }

  /** Every node is on some machine. */
  lemma EveryNodeIsPlaced(c: Config, p: Placement, nfs: seq<NF>, neighbors: seq<seq<int32>>, f: int32)
    returns (k: int32, i: nat)
    requires p.Valid() && |nfs| == |neighbors| == |p.functions| && Describes(c, p, nfs, neighbors) && f in c.nodes
    ensures k in c.machines && i < |NodesOf(c, k)| && NodesOf(c, k)[i] == c.nodes[f]
  {
    var ip := p.funcToIp[p.functions[f as int]];
    var m :| 0 <= m < |p.ips| && p.ips[m] == ip;
    k := m as int32;
    p.IdsAtComplete(ip, |p.functions|, f as int);
    var ids := p.IdsAt(ip, |p.functions|);
    i :| 0 <= i < |ids| && ids[i] == f;
    NodesAtMachine(c, p, nfs, neighbors, k);
  }

  lemma BridgePrefix()
    ensures ThroughLastDot(BRIDGE_IP) == "173.16.1." && BRIDGE_IP[9..] == "1" && Plain(BRIDGE_IP)
  {
    var prefix := "173.16.1.";
    assert BRIDGE_IP[..9] == prefix && BRIDGE_IP[|BRIDGE_IP| - 1] == '1' && prefix[|prefix| - 1] == '.';
  }

  lemma LeadingOne()
    ensures AddressText.Leading("1") == Some(1)
  {
    hide AddressText.Leading;
    AddressText.LeadingDecimal(1, "");
    assert AddressText.Decimal(1) == "1" && "1" + "" == "1";
  }

  /** The bridge's own number is 1, and containers count on from 2. */
  lemma BridgeNumbers(i: nat)
    ensures Plain(BRIDGE_IP) && BridgeHost(BRIDGE_IP) == 1
    ensures ContainerIp(BRIDGE_IP, i) == "173.16.1." + AddressText.ToString(2 + i)
  {
    hide ThroughLastDot, AddressText.Leading, AddressText.ToString, Plain;
    BridgePrefix();
    LeadingOne();
  }

  /** With real machine addresses, outside the bridges' network, and at most
      253 nodes on each machine, everything the routing needs holds. */
  lemma DescribedIsWellPlaced(c: Config, p: Placement, nfs: seq<NF>, neighbors: seq<seq<int32>>)
    requires p.Valid() && |nfs| == |neighbors| == |p.functions| && Describes(c, p, nfs, neighbors)
    requires forall ip :: ip in p.ips ==> Plain(ip) && ip != [] && !("173.16.1." <= ip)
    requires forall ip :: ip in p.ips ==> |p.IdsAt(ip, |p.functions|)| <= 253
    ensures WellPlaced(c)
  {
    hide ContainerIp, BridgeHost, Plain, PlacedOnce, NodesOf, RoomForNodes;
    DescribedIsPlacedOnce(c, p, nfs, neighbors);
    BridgeNumbers(0);
    forall k | k in c.machines
      ensures Plain(c.machines[k].ip) && c.machines[k].ip != [] && Plain(c.machines[k].bridgeIp)
      ensures RoomForNodes(c, k) && forall i :: 0 <= i < |NodesOf(c, k)| ==> NodesOf(c, k)[i].id >= 0
    {
      assert p.ips[k as int] in p.ips;
      RoomAt(c, p, nfs, neighbors, k);
    }
    forall k, l, i: nat | k in c.machines && l in c.machines && i < |NodesOf(c, k)|
      ensures ContainerIp(c.machines[k].bridgeIp, i) != c.machines[l].ip
    {
      BridgeNumbers(i);
      assert p.ips[l as int] in p.ips;
      assert "173.16.1." <= "173.16.1." + AddressText.ToString(2 + i);
    }
  }

  lemma RoomAt(c: Config, p: Placement, nfs: seq<NF>, neighbors: seq<seq<int32>>, k: int32)
    requires p.Valid() && |nfs| == |neighbors| == |p.functions| && Describes(c, p, nfs, neighbors) && k in c.machines
    requires |p.IdsAt(p.ips[k as int], |p.functions|)| <= 253
    ensures RoomForNodes(c, k) && forall i :: 0 <= i < |NodesOf(c, k)| ==> NodesOf(c, k)[i].id >= 0
  {
    hide BridgeHost, NodesOf;
    BridgeNumbers(0);
    NodesAtMachine(c, p, nfs, neighbors, k);
  }

  /** Every edge of the graph is routed: whatever machine sends, the n-th
      address that function u is started with leads to its n-th neighbour's
      container on that neighbour's machine, and to no other. */
  lemma EveryEdgeIsRouted(c: Config, p: Placement, nfs: seq<NF>, neighbors: seq<seq<int32>>, setup: Setup,
                          from: int32, u: int32, n: nat, mergerIp: string)
    returns (k: int32, i: nat)
    requires p.Valid() && |nfs| == |neighbors| == |p.functions| && Describes(c, p, nfs, neighbors)
    requires WellPlaced(c) && AllConfigured(c, setup) && |p.functions| <= 7999
    requires from in c.machines && u in c.nodes && n < |c.nodes[u].neighbors| && c.nodes[u].neighbors[n] in c.nodes
    ensures k in c.machines && i < |NodesOf(c, k)| && NodesOf(c, k)[i] == c.nodes[c.nodes[u].neighbors[n]]
    ensures n < |Arguments(c.nodes[u], setup[from].0, setup[from].1, mergerIp)|
    ensures var parsed := AddressText.AddressFromString(Arguments(c.nodes[u], setup[from].0, setup[from].1, mergerIp)[n]);
      parsed.Parsed? && forall l, j: nat :: Arrives(c, setup, from, parsed.address, l, j) <==> l == k && j == i
  {
    hide WellPlaced, AllConfigured, NodesOf, Arrives, Arguments, AddressText.AddressFromString;
    var v := c.nodes[u].neighbors[n];
    k, i := EveryNodeIsPlaced(c, p, nfs, neighbors, v);
    assert from in setup by { Configured(c, setup, from); }
    EdgeIsRouted(c, setup, from, c.nodes[u], n, k, i, mergerIp, k, i);
    forall l, j: nat
      ensures Arrives(c, setup, from, AddressText.AddressFromString(Arguments(c.nodes[u], setup[from].0, setup[from].1, mergerIp)[n]).address, l, j)
              <==> l == k && j == i
    {
      EdgeIsRouted(c, setup, from, c.nodes[u], n, k, i, mergerIp, l, j);
    }
  }

  lemma Configured(c: Config, setup: Setup, k: int32)
    requires AllConfigured(c, setup) && k in c.machines
    ensures k in setup
  {
  }

  // ----- Making the configurations -----

  predicate AreMachines(machines: seq<Machine>, p: Placement, n: nat)
    requires p.Valid() && n <= |p.functions|
    reads machines
  {
    |machines| == |p.ips| && forall k :: 0 <= k < |machines| ==>
      machines[k].Record() == MachineRecord(k as int32, p.ips[k], BRIDGE_IP, p.IdsAt(p.ips[k], n))
  }

  method MakeMachines(p: Placement) returns (machines: seq<Machine>, ipToMachines: map<string, Machine>)
    requires p.Valid()
    ensures fresh(machines) && AreMachines(machines, p, 0)
    ensures forall k :: 0 <= k < |p.ips| ==> p.ips[k] in ipToMachines && ipToMachines[p.ips[k]] == machines[k]
  {
    machines, ipToMachines := [], map[];
    for i := 0 to |p.ips|
      invariant |machines| == i && fresh(machines)
      invariant forall k :: 0 <= k < i ==> machines[k].Record() == MachineRecord(k as int32, p.ips[k], BRIDGE_IP, [])
      invariant forall k :: 0 <= k < i ==> p.ips[k] in ipToMachines && ipToMachines[p.ips[k]] == machines[k]
    {
      var m := new Machine(i as int32);
      m.SetIp(p.ips[i]);
      m.SetBridgeIp(BRIDGE_IP);
      machines := machines + [m];
      ipToMachines := ipToMachines[p.ips[i] := m];
    }
  }

  /** The i-th function's node goes to the machine that the placement says. */
  method PlaceNodes(p: Placement, machines: seq<Machine>, ipToMachines: map<string, Machine>)
    requires p.Valid() && AreMachines(machines, p, 0)
    requires forall k :: 0 <= k < |p.ips| ==> p.ips[k] in ipToMachines && ipToMachines[p.ips[k]] == machines[k]
    modifies machines
    ensures AreMachines(machines, p, |p.functions|)
  {
    for i := 0 to |p.functions|
      invariant AreMachines(machines, p, i)
    {
      PlaceNode(p, machines, ipToMachines, i);
    }
  }

  method PlaceNode(p: Placement, machines: seq<Machine>, ipToMachines: map<string, Machine>, i: nat)
    requires p.Valid() && i < |p.functions| && AreMachines(machines, p, i)
    requires forall k :: 0 <= k < |p.ips| ==> p.ips[k] in ipToMachines && ipToMachines[p.ips[k]] == machines[k]
    modifies machines
    ensures AreMachines(machines, p, i + 1)
  {
    assert p.functions[i] in p.functions;
    var ip := p.funcToIp[p.functions[i]];
    ghost var k :| 0 <= k < |p.ips| && p.ips[k] == ip;
    forall l | 0 <= l < |machines| && l != k
      ensures machines[l] != machines[k] && p.IdsAt(p.ips[l], i + 1) == p.IdsAt(p.ips[l], i)
    {
      assert machines[l].Record().id != machines[k].Record().id;
    }
    assert p.IdsAt(p.ips[k], i + 1) == p.IdsAt(p.ips[k], i) + [i as int32];
    ipToMachines[ip].AddNodeId(i as int32);
  }

  method MakeNode(id: int32, nf: NF, neighbors: seq<int32>) returns (n: RuntimeNode)
    ensures fresh(n) && n.id == id && n.nf == nf && n.neighbors == neighbors
  {
    n := new RuntimeNode(id, nf);
    for i := 0 to |neighbors|
      invariant n.neighbors == neighbors[..i]
    {
      n.AddNeighbor(neighbors[i]);
    }
    assert neighbors[..|neighbors|] == neighbors;
  }

  method MakeNodes(p: Placement, nfs: seq<NF>, neighbors: seq<seq<int32>>) returns (nodes: seq<RuntimeNode>)
    requires p.Valid() && |nfs| == |neighbors| == |p.functions|
    ensures fresh(nodes) && AreNodes(nodes, p, nfs, neighbors)
  {
    nodes := [];
    for f := 0 to |p.functions|
      invariant |nodes| == f && fresh(nodes)
      invariant forall g :: 0 <= g < f ==>
                  nodes[g].id == g as int32 && nodes[g].nf == nfs[g] && nodes[g].neighbors == neighbors[g]
    {
      var n := MakeNode(f as int32, nfs[f], neighbors[f]);
      nodes := nodes + [n];
    }
  }

  predicate AreNodes(nodes: seq<RuntimeNode>, p: Placement, nfs: seq<NF>, neighbors: seq<seq<int32>>)
    requires p.Valid() && |nfs| == |neighbors| == |p.functions|
    reads nodes
  {
    |nodes| == |p.functions| && forall f :: 0 <= f < |nodes| ==>
      nodes[f].id == f as int32 && nodes[f].nf == nfs[f] && nodes[f].neighbors == neighbors[f]
  }

  /** The own machine first, then the others. */
  method AddMachines(machines: seq<Machine>, own: nat) returns (mc: MachineConfigurator)
    requires own < |machines| <= LIMIT && forall k :: 0 <= k < |machines| ==> machines[k].id == k as int32
    ensures fresh(mc) && mc.machineId == own as int32 && mc.nodeMap == map[]
    ensures forall k :: k in mc.machineMap <==> 0 <= k as int < |machines|
    ensures forall k :: k in mc.machineMap ==> mc.machineMap[k] == machines[k as int]
  {
    mc := new MachineConfigurator(machines[own]);
    for j := 0 to |machines|
      invariant fresh(mc) && mc.nodeMap == map[]
      invariant forall k :: k in mc.machineMap <==> k == own as int32 || 0 <= k as int < j
      invariant forall k :: k in mc.machineMap ==> mc.machineMap[k] == machines[k as int]
    {
      if j != own {
        mc.AddMachine(machines[j]);
      }
    }
  }

  method AddNodes(mc: MachineConfigurator, nodes: seq<RuntimeNode>)
    requires mc.nodeMap == map[] && |nodes| <= LIMIT && forall f :: 0 <= f < |nodes| ==> nodes[f].id == f as int32
    modifies mc`nodeMap
    ensures forall g :: g in mc.nodeMap <==> 0 <= g as int < |nodes|
    ensures forall g :: g in mc.nodeMap ==> mc.nodeMap[g] == nodes[g as int]
  {
    for f := 0 to |nodes|
      invariant forall g :: g in mc.nodeMap <==> 0 <= g as int < f
      invariant forall g :: g in mc.nodeMap ==> mc.nodeMap[g] == nodes[g as int]
    {
      mc.AddNode(nodes[f]);
    }
  }

  /** One machine's configuration describes the placement. */
  method MakeConfigurator(p: Placement, nfs: seq<NF>, neighbors: seq<seq<int32>>, machines: seq<Machine>,
                          nodes: seq<RuntimeNode>, own: nat)
    returns (mc: MachineConfigurator)
    requires p.Valid() && |nfs| == |neighbors| == |p.functions| && own < |p.ips|
    requires AreMachines(machines, p, |p.functions|) && AreNodes(nodes, p, nfs, neighbors)
    ensures fresh(mc) && mc.Contents().machineId == own as int32
    ensures Describes(mc.Contents(), p, nfs, neighbors)
    ensures forall k :: k in mc.machineMap ==> 0 <= k as int < |machines| && mc.machineMap[k] == machines[k as int]
    ensures forall f :: f in mc.nodeMap ==> 0 <= f as int < |nodes| && mc.nodeMap[f] == nodes[f as int]
  {
    assert forall k :: 0 <= k < |machines| ==> machines[k].id == machines[k].Record().id;
    mc := AddMachines(machines, own);
    AddNodes(mc, nodes);
    MachinesDescribed(mc, p, machines);
    NodesDescribed(mc, p, nfs, neighbors, nodes);
    hide DescribesMachines, DescribesNodes;
  }

  lemma MachinesDescribed(mc: MachineConfigurator, p: Placement, machines: seq<Machine>)
    requires p.Valid() && AreMachines(machines, p, |p.functions|)
    requires forall k :: k in mc.machineMap <==> 0 <= k as int < |machines|
    requires forall k :: k in mc.machineMap ==> mc.machineMap[k] == machines[k as int]
    ensures DescribesMachines(mc.Contents().machines, p)
  {
    assert forall k :: k in mc.machineMap ==> mc.Contents().machines[k] == machines[k as int].Record();
  }

  lemma NodesDescribed(mc: MachineConfigurator, p: Placement, nfs: seq<NF>, neighbors: seq<seq<int32>>, nodes: seq<RuntimeNode>)
    requires p.Valid() && |nfs| == |neighbors| == |p.functions| && AreNodes(nodes, p, nfs, neighbors)
    requires forall g :: g in mc.nodeMap <==> 0 <= g as int < |nodes|
    requires forall g :: g in mc.nodeMap ==> mc.nodeMap[g] == nodes[g as int]
    ensures DescribesNodes(mc.Contents().nodes, nfs, neighbors)
  {
    assert forall f :: f in mc.nodeMap ==> mc.Contents().nodes[f] == nodes[f as int].Record();
  }
}

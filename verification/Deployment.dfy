/** From the orchestrator's graph and placement to the routes of every machine.

    The steps of the set-up are put together: machines and nodes are made,
    each machine's configuration is made, sent and received, and each machine
    works out its addresses. Every edge of the graph the orchestrator has
    built is then an address that leads to the right container. */
module Deployment {
  import opened MergeSpec
  import opened ActionTable
  import opened MachineConfig
  import opened ConfigMessages
  import opened Configure
  import opened Routing
  import opened MachineSetup
  import AddressText
  import O = Orchestrator

  // ----- The placement -----

  lemma {:induction false} PlacedSomewhere(ips: seq<string>, functions: seq<string>, n: nat, i: nat)
    requires i < n <= |functions| && ips != []
    ensures var placed := O.PlacedInTurn(ips, functions, n, map[]);
      functions[i] in placed && placed[functions[i]] in ips
  {
    if n == 1 {
    } else if i < n - 1 {
      PlacedSomewhere(ips, functions, n - 1, i);
    }
  }

  /** What the orchestrator has placed. */
  function PlacementOf(functions: seq<string>, ips: seq<string>, funcToIp: map<string, string>): Placement {
    Placement(functions, ips, funcToIp)
  }

  lemma PlacedInTurnIsValid(functions: seq<string>, ips: seq<string>, funcToIp: map<string, string>)
    requires |functions| <= LIMIT && |ips| <= LIMIT && (functions != [] ==> ips != [])
    requires forall k, l :: 0 <= k < l < |ips| ==> ips[k] != ips[l]
    requires funcToIp == O.PlacedInTurn(ips, functions, |functions|, map[])
    ensures PlacementOf(functions, ips, funcToIp).Valid()
  {
    forall f | f in functions
      ensures f in funcToIp && funcToIp[f] in ips
    {
      var i :| 0 <= i < |functions| && functions[i] == f;
      PlacedSomewhere(ips, functions, |functions|, i);
    }
  }

  // ----- The graph's neighbours, by id -----

  /** Every function has the position at which it is named last as its id. */
  ghost predicate Numbered(functions: seq<string>, ids: map<string, int32>) {
    (forall f :: f in ids <==> f in functions)
    && (forall f :: f in ids ==> 0 <= ids[f] as int < |functions| && functions[ids[f] as int] == f)
    && forall i :: 0 <= i < |functions| && functions[i] in ids ==> i <= ids[functions[i]] as int
  }

  method NumberFunctions(functions: seq<string>) returns (ids: map<string, int32>)
    requires |functions| <= LIMIT
    ensures Numbered(functions, ids)
  {
    ids := map[];
    for i := 0 to |functions|
      invariant forall f :: f in ids <==> f in functions[..i]
      invariant forall f :: f in ids ==> 0 <= ids[f] as int < i && functions[ids[f] as int] == f
      invariant forall k :: 0 <= k < i && functions[k] in ids ==> k <= ids[functions[k]] as int
    {
      assert functions[..i + 1] == functions[..i] + [functions[i]];
      ids := ids[functions[i] := i as int32];
    }
    assert functions[..|functions|] == functions;
  }

  /** The ids of the function's neighbours, each neighbour once. */
  ghost predicate Linked(names: set<string>, ids: map<string, int32>, links: seq<int32>) {
    names <= ids.Keys && |links| == |names| && (forall g :: g in names ==> ids[g] in links)
    && forall n :: 0 <= n < |links| ==> exists g :: g in names && ids[g] == links[n]
  }

  method NeighborIds(names: set<string>, ids: map<string, int32>) returns (links: seq<int32>)
    requires names <= ids.Keys
    ensures Linked(names, ids, links)
  {
    links := [];
    var todo := names;
    while todo != {}
      invariant todo <= names && |links| == |names| - |todo|
      invariant forall g :: g in names && g !in todo ==> ids[g] in links
      invariant forall n :: 0 <= n < |links| ==> exists g :: g in names && ids[g] == links[n]
      decreases todo
    {
      assert Pick(todo) in todo;
      var g :| g in todo;
      links := links + [ids[g]];
      todo := todo - {g};
    }
  }

  /** Node i's neighbours are those of the i-th function in the graph. */
  ghost predicate AllLinked(o: O.Orchestrator, functions: seq<string>, ids: map<string, int32>, neighbors: seq<seq<int32>>)
    reads o
  {
    |neighbors| == |functions|
    && forall i :: 0 <= i < |functions| ==> functions[i] in o.neighbors && Linked(o.neighbors[functions[i]], ids, neighbors[i])
  }

  method LinkFunctions(o: O.Orchestrator, functions: seq<string>, ids: map<string, int32>) returns (neighbors: seq<seq<int32>>)
    requires o.Valid() && (forall f :: f in o.neighbors <==> f in functions) && Numbered(functions, ids)
    ensures AllLinked(o, functions, ids, neighbors)
  {
    neighbors := [];
    for i := 0 to |functions|
      invariant |neighbors| == i
      invariant forall j :: 0 <= j < i ==> functions[j] in o.neighbors && Linked(o.neighbors[functions[j]], ids, neighbors[j])
    {
      assert functions[i] in functions;
      var links := NeighborIds(o.neighbors[functions[i]], ids);
      neighbors := neighbors + [links];
    }
  }

  // ----- Every machine configured -----

  predicate Within(k: int32, n: nat) {
    0 <= k as int < n
  }

  /** The machines' and nodes' values, as every configuration has them. */
  ghost function Service(machines: seq<Machine>, nodes: seq<RuntimeNode>): Config
    requires |machines| <= LIMIT && |nodes| <= LIMIT
    reads machines, nodes
  {
    Config(0, map k: int32 | Within(k, |machines|) :: machines[k as int].Record(),
           map f: int32 | Within(f, |nodes|) :: nodes[f as int].Record())
  }

  lemma SameView(mc: MachineConfigurator, machines: seq<Machine>, nodes: seq<RuntimeNode>, k: int32)
    requires |machines| <= LIMIT && |nodes| <= LIMIT && mc.Contents().machineId == k
    requires forall l :: l in mc.machineMap <==> 0 <= l as int < |machines|
    requires forall l :: l in mc.machineMap ==> mc.machineMap[l] == machines[l as int]
    requires forall f :: f in mc.nodeMap <==> 0 <= f as int < |nodes|
    requires forall f :: f in mc.nodeMap ==> mc.nodeMap[f] == nodes[f as int]
    ensures mc.Contents() == View(Service(machines, nodes), k)
  {
    assert mc.Contents().machines == Service(machines, nodes).machines;
    assert mc.Contents().nodes == Service(machines, nodes).nodes;
  }

  lemma ViewOfService(mc: MachineConfigurator, p: Placement, nfs: seq<NF>, neighbors: seq<seq<int32>>,
                      machines: seq<Machine>, nodes: seq<RuntimeNode>, own: nat)
    requires p.Valid() && |nfs| == |neighbors| == |p.functions| && own < |p.ips|
    requires AreMachines(machines, p, |p.functions|) && AreNodes(nodes, p, nfs, neighbors)
    requires mc.Contents().machineId == own as int32 && Describes(mc.Contents(), p, nfs, neighbors)
    requires forall k :: k in mc.machineMap ==> 0 <= k as int < |machines| && mc.machineMap[k] == machines[k as int]
    requires forall f :: f in mc.nodeMap ==> 0 <= f as int < |nodes| && mc.nodeMap[f] == nodes[f as int]
    ensures |machines| <= LIMIT && |nodes| <= LIMIT
    ensures mc.Contents() == View(Service(machines, nodes), own as int32)
    ensures Describes(Service(machines, nodes), p, nfs, neighbors)
    ensures KeyedByOwnIds(mc.Contents()) && PlacedOnce(mc.Contents())
  {
    assert forall k :: k in mc.machineMap <==> k in mc.Contents().machines;
    assert forall f :: f in mc.nodeMap <==> f in mc.Contents().nodes;
    SameView(mc, machines, nodes, own as int32);
    DescribedIsPlacedOnce(mc.Contents(), p, nfs, neighbors);
  }

  lemma Received(conf: MachineConfigurator, c: Config)
    requires conf.Contents() == c && c.machineId in c.machines
    ensures conf.machineId == c.machineId && conf.machineMap.Keys == c.machines.Keys
  {
    assert forall k :: k in conf.machineMap <==> k in conf.Contents().machines;
  }

  lemma OwnIsKnown(c: Config)
    requires KeyedByOwnIds(c)
    ensures c.machineId in c.machines
  {
  }

  /** One machine: its configuration made, sent, received and set up. */
  method ConfigureMachine(p: Placement, nfs: seq<NF>, neighbors: seq<seq<int32>>, machines: seq<Machine>, nodes: seq<RuntimeNode>,
                          own: nat, mergerIp: string)
    returns (networks: Networks, ports: Ports)
    requires p.Valid() && |nfs| == |neighbors| == |p.functions| && own < |p.ips|
    requires AreMachines(machines, p, |p.functions|) && AreNodes(nodes, p, nfs, neighbors)
    ensures |machines| <= LIMIT && |nodes| <= LIMIT && own <= LIMIT
    ensures Describes(Service(machines, nodes), p, nfs, neighbors)
    ensures own as int32 in Service(machines, nodes).machines
    ensures Assigned(View(Service(machines, nodes), own as int32), networks, ports, Service(machines, nodes).machines.Keys)
  {
    hide *;
    OwnFits(p, own);
    var mc := MakeConfigurator(p, nfs, neighbors, machines, nodes, own);
    ViewOfService(mc, p, nfs, neighbors, machines, nodes, own);
    ghost var c := mc.Contents();
    OwnIsKnown(c);
    ViewKeeps(Service(machines, nodes), own as int32);
    var received := Transmit(mc);
    var configure := new Configure(mergerIp);
    Received(received.value, c);
    configure.SetupBridgePorts(received.value);
    networks, ports := configure.nodeidToNetwork, configure.nodeidToPort;
  }

  lemma OwnFits(p: Placement, own: nat)
    requires p.Valid() && own < |p.ips|
    ensures own <= LIMIT
  {
  }

  lemma ViewKeeps(c: Config, k: int32)
    ensures View(c, k).machines == c.machines && View(c, k).machineId == k
  {
  }

  /** Every machine configured so far. */
  ghost predicate ConfiguredBelow(c: Config, setup: Setup, n: nat) {
    forall k :: k in c.machines && k as int < n ==> k in setup && Assigned(View(c, k), setup[k].0, setup[k].1, c.machines.Keys)
  }

  lemma OneMoreConfigured(c: Config, setup: Setup, n: nat, networks: Networks, ports: Ports)
    requires ConfiguredBelow(c, setup, n) && n <= LIMIT && n as int32 in c.machines
    requires Assigned(View(c, n as int32), networks, ports, c.machines.Keys)
    ensures ConfiguredBelow(c, setup[n as int32 := (networks, ports)], n + 1)
  {
    hide Assigned;
  }

  lemma BelowAll(c: Config, p: Placement, nfs: seq<NF>, neighbors: seq<seq<int32>>, setup: Setup)
    requires p.Valid() && |nfs| == |neighbors| == |p.functions| && Describes(c, p, nfs, neighbors)
    requires ConfiguredBelow(c, setup, |p.ips|)
    ensures AllConfigured(c, setup)
  {
    hide Assigned;
  }

  lemma NoneConfigured(c: Config)
    requires forall k :: k in c.machines ==> k >= 0
    ensures ConfiguredBelow(c, map[], 0)
  {
  }

  /** All machines configured, from the machines and nodes made for the placement. */
  method ConfigureAll(p: Placement, nfs: seq<NF>, neighbors: seq<seq<int32>>, mergerIp: string)
    returns (setup: Setup, ghost c: Config)
    requires p.Valid() && |nfs| == |neighbors| == |p.functions| && p.ips != []
    ensures Describes(c, p, nfs, neighbors) && AllConfigured(c, setup)
  {
    hide *;
    var machines, ipToMachines := MakeMachines(p);
    PlaceNodes(p, machines, ipToMachines);
    var nodes := MakeNodes(p, nfs, neighbors);
    setup := map[];
    var networks, ports := ConfigureMachine(p, nfs, neighbors, machines, nodes, 0, mergerIp);
    c := Service(machines, nodes);
    MachinesFromZero(c, p, nfs, neighbors);
    NoneConfigured(c);
    OneMoreConfigured(c, setup, 0, networks, ports);
    setup := setup[0 := (networks, ports)];
    for k := 1 to |p.ips|
      invariant AreMachines(machines, p, |p.functions|) && AreNodes(nodes, p, nfs, neighbors)
      invariant |machines| <= LIMIT && |nodes| <= LIMIT && c == Service(machines, nodes)
      invariant ConfiguredBelow(c, setup, k)
    {
      networks, ports := ConfigureMachine(p, nfs, neighbors, machines, nodes, k, mergerIp);
      OneMoreConfigured(c, setup, k, networks, ports);
      setup := setup[k as int32 := (networks, ports)];
    }
    BelowAll(c, p, nfs, neighbors, setup);
  }

  lemma MachinesFromZero(c: Config, p: Placement, nfs: seq<NF>, neighbors: seq<seq<int32>>)
    requires p.Valid() && |nfs| == |neighbors| == |p.functions| && Describes(c, p, nfs, neighbors)
    ensures forall k :: k in c.machines ==> k >= 0
  {
  }

  /** From the orchestrator's graph to every machine's addresses: the service
      all machines know is the orchestrator's placement with the graph's own
      neighbours, and every machine has gone through its configuration. */
  method Deploy(o: O.Orchestrator, functions: seq<string>, ips: seq<string>, nfs: seq<NF>, mergerIp: string)
    returns (setup: Setup, ids: map<string, int32>, neighbors: seq<seq<int32>>, ghost c: Config)
    requires o.Valid() && forall f :: f in o.neighbors <==> f in functions
    requires |functions| <= LIMIT && 0 < |ips| <= LIMIT && |nfs| == |functions|
    requires o.funcToIp == O.PlacedInTurn(ips, functions, |functions|, map[])
    requires forall k, l :: 0 <= k < l < |ips| ==> ips[k] != ips[l]
    ensures Numbered(functions, ids) && AllLinked(o, functions, ids, neighbors)
    ensures PlacementOf(functions, ips, o.funcToIp).Valid() && |neighbors| == |functions|
    ensures Describes(c, PlacementOf(functions, ips, o.funcToIp), nfs, neighbors) && AllConfigured(c, setup)
  {
    hide *;
    PlacedInTurnIsValid(functions, ips, o.funcToIp);
    ids := NumberFunctions(functions);
    neighbors := LinkFunctions(o, functions, ids);
    LinkedCount(o, functions, ids, neighbors);
    PlacementParts(functions, ips, o.funcToIp);
    setup, c := ConfigureAll(PlacementOf(functions, ips, o.funcToIp), nfs, neighbors, mergerIp);
  }

  lemma LinkedCount(o: O.Orchestrator, functions: seq<string>, ids: map<string, int32>, neighbors: seq<seq<int32>>)
    requires AllLinked(o, functions, ids, neighbors)
    ensures |neighbors| == |functions|
  {
  }

  lemma PlacementParts(functions: seq<string>, ips: seq<string>, funcToIp: map<string, string>)
    ensures PlacementOf(functions, ips, funcToIp).functions == functions && PlacementOf(functions, ips, funcToIp).ips == ips
  {
  }

  // ----- The graph's edges on the wire -----

  /** Where an edge of the graph stands in the description. */
  lemma EdgeInDescription(o: O.Orchestrator, functions: seq<string>, ids: map<string, int32>, neighbors: seq<seq<int32>>,
                          c: Config, p: Placement, nfs: seq<NF>, f: string, g: string) returns (n: nat)
    requires (f, g) in o.Edges() && Numbered(functions, ids) && AllLinked(o, functions, ids, neighbors)
    requires p.Valid() && p.functions == functions && |nfs| == |neighbors| == |functions| && Describes(c, p, nfs, neighbors)
    requires f in functions
    ensures f in ids && g in ids && ids[f] in c.nodes && ids[g] in c.nodes
    ensures n < |c.nodes[ids[f]].neighbors| && c.nodes[ids[f]].neighbors[n] == ids[g]
  {
    var i := ids[f] as int;
    assert Linked(o.neighbors[functions[i]], ids, neighbors[i]);
    assert g in o.neighbors[f];
    n :| 0 <= n < |neighbors[i]| && neighbors[i][n] == ids[g];
  }

  /** Every edge of the orchestrator's graph is routed: whichever machine the
      function f runs on, one of the addresses it is started with leads to the
      container of g, and to no other. */
  lemma GraphEdgeIsRouted(o: O.Orchestrator, functions: seq<string>, ids: map<string, int32>, neighbors: seq<seq<int32>>,
                          c: Config, p: Placement, nfs: seq<NF>, setup: Setup, from: int32, f: string, g: string, mergerIp: string)
    returns (n: nat, k: int32, i: nat)
    requires (f, g) in o.Edges() && f in functions && Numbered(functions, ids) && AllLinked(o, functions, ids, neighbors)
    requires p.Valid() && p.functions == functions && |nfs| == |neighbors| == |functions| && Describes(c, p, nfs, neighbors)
    requires AllConfigured(c, setup) && from in c.machines && |functions| <= 7999
    requires forall ip :: ip in p.ips ==> Plain(ip) && ip != [] && !("173.16.1." <= ip)
    requires forall ip :: ip in p.ips ==> |p.IdsAt(ip, |p.functions|)| <= 253
    ensures f in ids && g in ids && ids[f] in c.nodes && ids[g] in c.nodes && from in setup
    ensures k in c.machines && i < |NodesOf(c, k)| && NodesOf(c, k)[i] == c.nodes[ids[g]]
    ensures n < |Arguments(c.nodes[ids[f]], setup[from].0, setup[from].1, mergerIp)|
    ensures var parsed := AddressText.AddressFromString(Arguments(c.nodes[ids[f]], setup[from].0, setup[from].1, mergerIp)[n]);
      parsed.Parsed? && forall l, j: nat :: Arrives(c, setup, from, parsed.address, l, j) <==> l == k && j == i
  {
    hide *;
    n := EdgeInDescription(o, functions, ids, neighbors, c, p, nfs, f, g);
    Configured(c, setup, from);
    DescribedIsWellPlaced(c, p, nfs, neighbors);
    k, i := EveryEdgeIsRouted(c, p, nfs, neighbors, setup, from, ids[f], n, mergerIp);
  }

  /** Where a link of a node stands in the graph. */
  lemma LinkIsEdge(o: O.Orchestrator, functions: seq<string>, ids: map<string, int32>, neighbors: seq<seq<int32>>,
                   c: Config, p: Placement, nfs: seq<NF>, f: string, n: nat) returns (g: string)
    requires f in functions && Numbered(functions, ids) && AllLinked(o, functions, ids, neighbors)
    requires p.Valid() && p.functions == functions && |nfs| == |neighbors| == |functions| && Describes(c, p, nfs, neighbors)
    requires f in ids && ids[f] in c.nodes && n < |c.nodes[ids[f]].neighbors|
    ensures (f, g) in o.Edges() && g in ids && ids[g] == c.nodes[ids[f]].neighbors[n]
  {
    var i := ids[f] as int;
    assert Linked(o.neighbors[functions[i]], ids, neighbors[i]);
    g :| g in o.neighbors[f] && ids[g] == neighbors[i][n];
  }

  lemma NodeOfFunction(o: O.Orchestrator, functions: seq<string>, ids: map<string, int32>, neighbors: seq<seq<int32>>,
                       c: Config, p: Placement, nfs: seq<NF>, f: string)
    requires f in functions && Numbered(functions, ids) && AllLinked(o, functions, ids, neighbors)
    requires p.Valid() && p.functions == functions && |nfs| == |neighbors| == |functions| && Describes(c, p, nfs, neighbors)
    ensures f in ids && 0 <= ids[f] as int < |nfs| && ids[f] in c.nodes && f in o.neighbors
    ensures c.nodes[ids[f]].id == ids[f] && c.nodes[ids[f]].nf == nfs[ids[f] as int]
    ensures |c.nodes[ids[f]].neighbors| == |o.neighbors[f]|
  {
    var i := ids[f] as int;
    assert Linked(o.neighbors[functions[i]], ids, neighbors[i]);
  }

  /** One argument for each neighbour, or without neighbours the merger's
      address alone; the packet generator has no such argument. */
  lemma ArgumentCount(u: NodeRecord, networks: Networks, ports: Ports, mergerIp: string)
    ensures u.neighbors != [] ==> |Arguments(u, networks, ports, mergerIp)| == |u.neighbors|
    ensures u.neighbors == [] && u.nf == pktgen ==> Arguments(u, networks, ports, mergerIp) == []
    ensures u.neighbors == [] && u.nf != pktgen ==> |Arguments(u, networks, ports, mergerIp)| == 1
  {
  }

  /** And conversely: a function with neighbours is started with as many
      addresses as it has neighbours in the orchestrator's graph, and every one
      of them leads to the container of one of them, and nowhere else. */
  lemma GraphArgumentIsEdge(o: O.Orchestrator, functions: seq<string>, ids: map<string, int32>, neighbors: seq<seq<int32>>,
                            c: Config, p: Placement, nfs: seq<NF>, setup: Setup, from: int32, f: string, n: nat,
                            mergerIp: string)
    returns (g: string, k: int32, i: nat)
    requires f in functions && Numbered(functions, ids) && AllLinked(o, functions, ids, neighbors)
    requires p.Valid() && p.functions == functions && |nfs| == |neighbors| == |functions| && Describes(c, p, nfs, neighbors)
    requires AllConfigured(c, setup) && from in c.machines && from in setup && |functions| <= 7999
    requires forall ip :: ip in p.ips ==> Plain(ip) && ip != [] && !("173.16.1." <= ip)
    requires forall ip :: ip in p.ips ==> |p.IdsAt(ip, |p.functions|)| <= 253
    requires f in ids && ids[f] in c.nodes && f in o.neighbors && o.neighbors[f] != {}
    requires n < |Arguments(c.nodes[ids[f]], setup[from].0, setup[from].1, mergerIp)|
    ensures |Arguments(c.nodes[ids[f]], setup[from].0, setup[from].1, mergerIp)| == |o.neighbors[f]|
    ensures (f, g) in o.Edges() && g in ids && ids[g] in c.nodes
    ensures k in c.machines && i < |NodesOf(c, k)| && NodesOf(c, k)[i] == c.nodes[ids[g]]
    ensures var parsed := AddressText.AddressFromString(Arguments(c.nodes[ids[f]], setup[from].0, setup[from].1, mergerIp)[n]);
      parsed.Parsed? && forall l, j: nat :: Arrives(c, setup, from, parsed.address, l, j) <==> l == k && j == i
  {
    hide *;
    NodeOfFunction(o, functions, ids, neighbors, c, p, nfs, f);
    ArgumentCount(c.nodes[ids[f]], setup[from].0, setup[from].1, mergerIp);
    g := LinkIsEdge(o, functions, ids, neighbors, c, p, nfs, f, n);
    TargetIsKnown(o, functions, ids, neighbors, c, p, nfs, f, g);
    DescribedIsWellPlaced(c, p, nfs, neighbors);
    k, i := EveryEdgeIsRouted(c, p, nfs, neighbors, setup, from, ids[f], n, mergerIp);
  }

  lemma TargetIsKnown(o: O.Orchestrator, functions: seq<string>, ids: map<string, int32>, neighbors: seq<seq<int32>>,
                      c: Config, p: Placement, nfs: seq<NF>, f: string, g: string)
    requires Numbered(functions, ids) && AllLinked(o, functions, ids, neighbors) && g in ids
    requires p.Valid() && p.functions == functions && |nfs| == |neighbors| == |functions| && Describes(c, p, nfs, neighbors)
    ensures ids[g] in c.nodes
  {
  }

  /** A function without neighbours is started with one address, the merger's
      with the port at which the merger has that very function; the packet
      generator is started with none. */
  lemma LeafIsHeard(o: O.Orchestrator, functions: seq<string>, ids: map<string, int32>, neighbors: seq<seq<int32>>,
                    c: Config, p: Placement, nfs: seq<NF>, networks: Networks, ports: Ports, f: string, mergerIp: string,
                    portToNode: map<int, int>)
    requires f in functions && Numbered(functions, ids) && AllLinked(o, functions, ids, neighbors)
    requires p.Valid() && p.functions == functions && |nfs| == |neighbors| == |functions| && Describes(c, p, nfs, neighbors)
    requires f in o.neighbors && o.neighbors[f] == {} && mergerIp != [] && Plain(mergerIp)
    requires forall g :: g in functions ==> g in o.neighbors
    requires forall port :: port in portToNode <==>
               8000 < port <= 8000 + |functions| && o.neighbors[functions[port - 8001]] == {}
    requires forall port :: port in portToNode ==> port == 8000 + portToNode[port] + 1
    requires |functions| <= 57535
    ensures f in ids && 0 <= ids[f] as int < |nfs| && ids[f] in c.nodes
    ensures var args := Arguments(c.nodes[ids[f]], networks, ports, mergerIp);
      if nfs[ids[f] as int] == pktgen then args == []
      else
        |args| == 1 && AddressText.AddressFromString(args[0]) == AddressText.Parsed(AddressText.Address(mergerIp, 8001 + ids[f] as int))
        && 8001 + ids[f] as int in portToNode && portToNode[8001 + ids[f] as int] == ids[f] as int
  {
    hide *;
    NodeOfFunction(o, functions, ids, neighbors, c, p, nfs, f);
    ArgumentCount(c.nodes[ids[f]], networks, ports, mergerIp);
    if nfs[ids[f] as int] != pktgen {
      AtItsNumber(functions, ids, f);
      LeafArgument(c.nodes[ids[f]], networks, ports, mergerIp, portToNode);
    }
  }

  lemma AtItsNumber(functions: seq<string>, ids: map<string, int32>, f: string)
    requires Numbered(functions, ids) && f in ids
    ensures 0 <= ids[f] as int < |functions| && functions[ids[f] as int] == f
  {
  }

  lemma LeafArgument(u: NodeRecord, networks: Networks, ports: Ports, mergerIp: string, portToNode: map<int, int>)
    requires u.neighbors == [] && u.nf != pktgen && mergerIp != [] && Plain(mergerIp) && 0 <= u.id as int < 57535
    requires 8001 + u.id as int in portToNode && forall port :: port in portToNode ==> port == 8000 + portToNode[port] + 1
    ensures var args := Arguments(u, networks, ports, mergerIp);
      |args| == 1 && AddressText.AddressFromString(args[0]) == AddressText.Parsed(AddressText.Address(mergerIp, 8001 + u.id as int))
      && portToNode[8001 + u.id as int] == u.id as int
  {
    hide AddressText.AddressFromString, Arguments, Plain;
    LeafReachesItsPort(u, networks, ports, mergerIp, portToNode);
  }

  /** The one argument is the merger's address with the node's port. */
  ghost predicate Heard(u: NodeRecord, args: seq<string>, mergerIp: string, portToNode: map<int, int>) {
    if u.nf == pktgen then args == []
    else
      |args| == 1 && 8001 + u.id as int in portToNode && portToNode[8001 + u.id as int] == u.id as int
      && AddressText.AddressFromString(args[0]) == AddressText.Parsed(AddressText.Address(mergerIp, 8001 + u.id as int))
  }

  lemma IsHeard(u: NodeRecord, args: seq<string>, mergerIp: string, portToNode: map<int, int>)
    requires if u.nf == pktgen then args == []
             else
               |args| == 1 && 8001 + u.id as int in portToNode && portToNode[8001 + u.id as int] == u.id as int
               && AddressText.AddressFromString(args[0]) == AddressText.Parsed(AddressText.Address(mergerIp, 8001 + u.id as int))
    ensures Heard(u, args, mergerIp, portToNode)
  {
  }

  /** The orchestrator's ports and the functions' arguments fit: each function
      without neighbours, the packet generator aside, sends to the port at
      which the merger has it. */
  method HearLeaves(o: O.Orchestrator, functions: seq<string>, ghost ids: map<string, int32>, ghost neighbors: seq<seq<int32>>,
                    ghost c: Config, ghost p: Placement, ghost nfs: seq<NF>, ghost setup: Setup, mergerIp: string)
    returns (portToNode: map<int, int>)
    requires Numbered(functions, ids) && AllLinked(o, functions, ids, neighbors) && forall g :: g in functions ==> g in o.neighbors
    requires p.Valid() && p.functions == functions && |nfs| == |neighbors| == |functions| && Describes(c, p, nfs, neighbors)
    requires mergerIp != [] && Plain(mergerIp) && |functions| <= 57535
    ensures forall f :: f in functions ==> f in ids && 0 <= ids[f] as int < |nfs| && ids[f] in c.nodes
    ensures forall f, from :: f in functions && o.neighbors[f] == {} && from in setup ==>
              Heard(c.nodes[ids[f]], Arguments(c.nodes[ids[f]], setup[from].0, setup[from].1, mergerIp), mergerIp, portToNode)
  {
    hide *;
    portToNode := o.LeafPorts(functions);
    forall f | f in functions
      ensures f in ids && 0 <= ids[f] as int < |nfs| && ids[f] in c.nodes && c.nodes[ids[f]].id == ids[f]
              && c.nodes[ids[f]].nf == nfs[ids[f] as int]
    {
      NodeOfFunction(o, functions, ids, neighbors, c, p, nfs, f);
    }
    forall f, from | f in functions && o.neighbors[f] == {} && from in setup
      ensures Heard(c.nodes[ids[f]], Arguments(c.nodes[ids[f]], setup[from].0, setup[from].1, mergerIp), mergerIp, portToNode)
    {
      LeafIsHeard(o, functions, ids, neighbors, c, p, nfs, setup[from].0, setup[from].1, f, mergerIp, portToNode);
      IsHeard(c.nodes[ids[f]], Arguments(c.nodes[ids[f]], setup[from].0, setup[from].1, mergerIp), mergerIp, portToNode);
    }
  }
}

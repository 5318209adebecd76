/** From address texts to containers.

    Machines work out addresses on their own. Here they are shown to agree:
    along every edge of the service graph a packet ends at exactly the
    container it is meant for, directly on the same machine or through the
    forwarder of the other. */
module Routing {
  import opened Packets
  import opened ActionTable
  import opened AddressText
  import opened Forwarder
  import opened MachineConfig
  import opened Configure

  /** What each machine has worked out. */
  type Setup = map<int32, (Networks, Ports)>

  /** The service as machine k sees it. */
  function View(c: Config, k: int32): Config {
    Config(k, c.machines, c.nodes)
  }

  /** No colon, semicolon or NUL. */
  predicate Plain(s: string) {
    ':' !in s && ';' !in s && NUL !in s
  }

  /** The machine's containers have room in the bridge's last octet. */
  predicate RoomForNodes(c: Config, k: int32)
    requires k in c.machines
  {
    0 <= BridgeHost(c.machines[k].bridgeIp) && BridgeHost(c.machines[k].bridgeIp) + |NodesOf(c, k)| <= 254
  }

  ghost predicate WellPlaced(c: Config) {
    PlacedOnce(c)
    && (forall k :: k in c.machines ==> Plain(c.machines[k].ip) && c.machines[k].ip != [] && Plain(c.machines[k].bridgeIp) && RoomForNodes(c, k))
    && (forall k, l :: k in c.machines && l in c.machines && c.machines[k].ip == c.machines[l].ip ==> k == l)
    && (forall k, l, i: nat :: k in c.machines && l in c.machines && i < |NodesOf(c, k)| ==>
          ContainerIp(c.machines[k].bridgeIp, i) != c.machines[l].ip)
    && (forall k, i :: k in c.machines && 0 <= i < |NodesOf(c, k)| ==> NodesOf(c, k)[i].id >= 0)
  }

  /** Every machine has gone through its configuration. */
  ghost predicate AllConfigured(c: Config, setup: Setup) {
    forall k :: k in c.machines ==> k in setup && Assigned(View(c, k), setup[k].0, setup[k].1, c.machines.Keys)
  }

  /** The table that machine k's forwarder reads. */
  function Table(c: Config, setup: Setup, k: int32): Option<seq<Entry>>
    requires k in setup
  {
    ParseLines(Terminated(Lines(NodesOf(c, k), setup[k].0, setup[k].1)))
  }

  /** On machine k the address belongs to the container of its i-th node. */
  ghost predicate Local(c: Config, a: Address, k: int32, i: nat) {
    k in c.machines && i < |NodesOf(c, k)|
    && a == Address(ContainerIp(c.machines[k].bridgeIp, i), CONTAINER_PORT)
  }

  /** A packet sent from machine `from` to the address ends at the i-th node
      of machine k: inside the machine, or through k's forwarder, which listens
      on real ports only. */
  ghost predicate Arrives(c: Config, setup: Setup, from: int32, a: Address, k: int32, i: nat) {
    (k == from && Local(c, a, k, i)) || (k in c.machines && k in setup && a.ip == c.machines[k].ip && Forwards(c, setup, a.port, k, i))
  }

  ghost predicate Forwards(c: Config, setup: Setup, port: int, k: int32, i: nat)
    requires k in setup
  {
    1 <= port <= 65535 && Table(c, setup, k).Some?
    && exists e :: e in Table(c, setup, k).value && e.realPort == port && e.virtualAddr.Some? && Local(c, e.virtualAddr.value, k, i)
  }

  // ----- The forwarder's table -----

  function EntriesOf(c: Config, k: int32): (entries: seq<Entry>)
    requires k in c.machines
    ensures |entries| == |NodesOf(c, k)|
    ensures forall i :: 0 <= i < |entries| ==>
              entries[i] == Entry(ForwarderPort(NodesOf(c, k)[i].id), Some(Address(ContainerIp(c.machines[k].bridgeIp, i), CONTAINER_PORT)))
  {
    seq(|NodesOf(c, k)|, i requires 0 <= i < |NodesOf(c, k)| =>
      Entry(ForwarderPort(NodesOf(c, k)[i].id), Some(Address(ContainerIp(c.machines[k].bridgeIp, i), CONTAINER_PORT))))
  }

  lemma ContainerIpIsPlain(bridgeIp: string, i: nat)
    requires Plain(bridgeIp)
    ensures Plain(ContainerIp(bridgeIp, i)) && ContainerIp(bridgeIp, i) != []
  {
    var prefix, host := ThroughLastDot(bridgeIp), ToString(BridgeHost(bridgeIp) + 1 + i);
    assert forall ch :: ch in prefix ==> ch in bridgeIp;
    assert forall ch :: ch in host ==> IsDigit(ch) || ch == '-';
    assert forall ch :: ch in prefix + host ==> ch in prefix || ch in host;
  }

  lemma {:induction false} ParseAll(lines: seq<string>, entries: seq<Entry>)
    requires |lines| == |entries| && forall i :: 0 <= i < |lines| ==> ParseLine(lines[i]) == Some(entries[i])
    ensures ParseLines(lines) == Some(entries)
  {
    hide ParseLine;
    if lines == [] {
    } else {
      ParseAll(lines[1..], entries[1..]);
      assert entries == [entries[0]] + entries[1..];
    }
  }

  /** What a machine writes into its forwarder's table is read back as its
      containers' addresses, each under its node's own port. */
  lemma TableIsRead(c: Config, setup: Setup, k: int32)
    requires WellPlaced(c) && AllConfigured(c, setup) && k in c.machines
    ensures Table(c, setup, k) == Some(EntriesOf(c, k))
  {
    hide NodesOf, ContainerIp, TableLine, ParseLine, ParseLines, BridgeHost;
    var lines := Lines(NodesOf(c, k), setup[k].0, setup[k].1);
    forall i | 0 <= i < |lines|
      ensures ParseLine(Terminated(lines)[i]) == Some(EntriesOf(c, k)[i])
    {
      TableEntryIsRead(c, setup, k, i);
    }
    ParseAll(Terminated(lines), EntriesOf(c, k));
  }

  lemma SameNodes(c: Config, k: int32)
    ensures NodesOf(View(c, k), k) == NodesOf(c, k)
  {
  }

  lemma TableEntryIsRead(c: Config, setup: Setup, k: int32, i: nat)
    requires WellPlaced(c) && AllConfigured(c, setup) && k in c.machines && i < |NodesOf(c, k)|
    ensures ParseLine(Lines(NodesOf(c, k), setup[k].0, setup[k].1)[i] + [NUL]) == Some(EntriesOf(c, k)[i])
  {
    hide NodesOf, ContainerIp, TableLine, ParseLine, BridgeHost, Plain;
    SameNodes(c, k);
    var id := NodesOf(c, k)[i].id;
    var a := Address(ContainerIp(c.machines[k].bridgeIp, i), CONTAINER_PORT);
    assert Has(setup[k].0, setup[k].1, id, NodeAddress(View(c, k), k, i));
    ContainerIpIsPlain(c.machines[k].bridgeIp, i);
    assert ':' !in a.ip && ';' !in a.ip && NUL !in a.ip by { PlainMeans(a.ip); }
    TableLineRoundTrip(ForwarderPort(id), a);
  }

  lemma PlainMeans(s: string)
    requires Plain(s)
    ensures ':' !in s && ';' !in s && NUL !in s
  {
  }

  // ----- Along an edge -----

  /** Machine `from` reaches the i-th node of machine k, and no other node,
      with the address it has worked out for it; through a forwarder only up
      to node id 7998. */
  lemma AddressReachesItsNode(c: Config, setup: Setup, from: int32, k: int32, i: nat, l: int32, j: nat)
    requires WellPlaced(c) && AllConfigured(c, setup) && from in c.machines && k in c.machines && i < |NodesOf(c, k)|
    ensures Arrives(c, setup, from, NodeAddress(View(c, from), k, i), l, j) <==>
            l == k && j == i && (k == from || NodesOf(c, k)[i].id <= 7998)
  {
    hide *;
    InSetup(c, setup);
    SameNodesFrom(c, from, k);
    AddressFor(c, from, k, i);
    if l in c.machines && j < |NodesOf(c, l)| {
      TableIsRead(c, setup, l);
      if k == from {
        LocalOnly(c, k, i, l, j);
        WithinMachine(c, setup, from, i, l, j);
      } else {
        RemoteOnly(c, setup, from, k, i, l, j);
      }
    } else {
      NowhereElse(c, setup, from, NodeAddress(View(c, from), k, i), l, j);
    }
  }

  lemma InSetup(c: Config, setup: Setup)
    requires AllConfigured(c, setup)
    ensures forall k :: k in c.machines ==> k in setup
  {
  }

  lemma AddressFor(c: Config, from: int32, k: int32, i: nat)
    requires from in c.machines && k in c.machines && i < |NodesOf(c, k)|
    ensures View(c, from).machineId in View(c, from).machines && k in View(c, from).machines && i < |NodesOf(View(c, from), k)|
    ensures NodeAddress(View(c, from), k, i) ==
            if k == from then Address(ContainerIp(c.machines[k].bridgeIp, i), CONTAINER_PORT)
            else Address(c.machines[k].ip, ForwarderPort(NodesOf(c, k)[i].id))
  {
    hide ContainerIp, ForwarderPort;
  }

  /** Within a machine a container's address is that container's alone. */
  lemma WithinMachine(c: Config, setup: Setup, from: int32, i: nat, l: int32, j: nat)
    requires from in c.machines && i < |NodesOf(c, from)| && l in c.machines && l in setup && j < |NodesOf(c, l)|
    requires ContainerIp(c.machines[from].bridgeIp, i) != c.machines[l].ip
    requires from == l && ContainerIp(c.machines[from].bridgeIp, i) == ContainerIp(c.machines[from].bridgeIp, j) ==> i == j
    ensures Arrives(c, setup, from, Address(ContainerIp(c.machines[from].bridgeIp, i), CONTAINER_PORT), l, j) <==> l == from && j == i
  {
    hide NodesOf, ContainerIp, Forwards;
  }

  lemma NowhereElse(c: Config, setup: Setup, from: int32, a: Address, l: int32, j: nat)
    requires !(l in c.machines && j < |NodesOf(c, l)|)
    ensures !Arrives(c, setup, from, a, l, j)
  {
    hide NodesOf, ContainerIp;
  }

  lemma SameNodesFrom(c: Config, from: int32, k: int32)
    ensures NodesOf(View(c, from), k) == NodesOf(c, k)
  {
  }

  /** A container address is no machine's, and only one container's. */
  lemma LocalOnly(c: Config, k: int32, i: nat, l: int32, j: nat)
    requires WellPlaced(c) && k in c.machines && i < |NodesOf(c, k)| && l in c.machines && j < |NodesOf(c, l)|
    ensures ContainerIp(c.machines[k].bridgeIp, i) != c.machines[l].ip
    ensures k == l && ContainerIp(c.machines[k].bridgeIp, i) == ContainerIp(c.machines[k].bridgeIp, j) ==> i == j
  {
    hide NodesOf, ContainerIp, BridgeHost, PlacedOnce, Plain;
    assert RoomForNodes(c, k);
    if k == l && ContainerIp(c.machines[k].bridgeIp, i) == ContainerIp(c.machines[k].bridgeIp, j) {
      ContainerIpsDiffer(c.machines[k].bridgeIp, i, j);
    }
  }

  /** A machine's address is no container's, and its forwarder knows the
      node's port for that node alone. */
  lemma RemoteOnly(c: Config, setup: Setup, from: int32, k: int32, i: nat, l: int32, j: nat)
    requires WellPlaced(c) && from in c.machines && k in c.machines && k != from && i < |NodesOf(c, k)|
    requires l in c.machines && l in setup && j < |NodesOf(c, l)| && Table(c, setup, l) == Some(EntriesOf(c, l))
    ensures Arrives(c, setup, from, Address(c.machines[k].ip, ForwarderPort(NodesOf(c, k)[i].id)), l, j) <==>
            l == k && j == i && NodesOf(c, k)[i].id <= 7998
  {
    hide NodesOf, ContainerIp, BridgeHost, Plain, Table;
    var id := NodesOf(c, k)[i].id;
    var a := Address(c.machines[k].ip, ForwarderPort(id));
    assert id >= 0;
    if l == from {
      assert ContainerIp(c.machines[l].bridgeIp, j) != a.ip;
    }
    assert a.ip == c.machines[l].ip <==> l == k;
    if l == k {
      var entries := EntriesOf(c, k);
      assert entries[i] in entries;
      if e :| e in entries && e.realPort == a.port && e.virtualAddr.Some? && Local(c, e.virtualAddr.value, k, j) {
        var n :| 0 <= n < |entries| && entries[n] == e;
        assert NodesOf(c, k)[n].id == id;
        assert n == i;
        LocalOnly(c, k, n, k, j);
      }
      assert Local(c, entries[i].virtualAddr.value, k, i);
    }
  }

  /** The whole way: node u on machine `from` has node v on machine k as its
      n-th neighbour. The n-th address u is started with, read back from its
      text, leads to v and to nothing else. */
  lemma EdgeIsRouted(c: Config, setup: Setup, from: int32, u: NodeRecord, n: nat, k: int32, i: nat, mergerIp: string,
                     l: int32, j: nat)
    requires WellPlaced(c) && AllConfigured(c, setup) && from in c.machines && k in c.machines && i < |NodesOf(c, k)|
    requires n < |u.neighbors| && u.neighbors[n] == NodesOf(c, k)[i].id
    ensures n < |Arguments(u, setup[from].0, setup[from].1, mergerIp)|
    ensures var parsed := AddressFromString(Arguments(u, setup[from].0, setup[from].1, mergerIp)[n]);
      && parsed.Parsed?
      && (Arrives(c, setup, from, parsed.address, l, j) <==> l == k && j == i && (k == from || NodesOf(c, k)[i].id <= 7998))
  {
    hide NodesOf, ContainerIp, Arrives, AddressFromString, AddressToString, BridgeHost;
    SameNodesFrom(c, from, k);
    var a := NodeAddress(View(c, from), k, i);
    assert Has(setup[from].0, setup[from].1, NodesOf(View(c, from), k)[i].id, a);
    assert Arguments(u, setup[from].0, setup[from].1, mergerIp)[n] == AddressToString(a);
    ContainerIpIsPlain(c.machines[k].bridgeIp, i);
    AddressRoundTrip(a, []);
    assert AddressToString(a) + [] == AddressToString(a);
    AddressReachesItsNode(c, setup, from, k, i, l, j);
  }

  /** A leaf's packets go to the port that the merger has down for that very
      leaf. */
  lemma LeafReachesItsPort(u: NodeRecord, networks: Networks, ports: Ports, mergerIp: string, portToNode: map<int, int>)
    requires u.neighbors == [] && u.nf != pktgen
    requires mergerIp != [] && Plain(mergerIp) && 0 <= u.id && MergerPort(u.id) <= 65535
    requires MergerPort(u.id) in portToNode && forall port :: port in portToNode ==> port == CONTAINER_PORT + portToNode[port] + 1
    ensures |Arguments(u, networks, ports, mergerIp)| == 1
    ensures AddressFromString(Arguments(u, networks, ports, mergerIp)[0]) == Parsed(Address(mergerIp, MergerPort(u.id)))
    ensures portToNode[MergerPort(u.id)] == u.id as int
  {
    var a := Address(mergerIp, MergerPort(u.id));
    AddressRoundTrip(a, []);
    assert AddressToString(a) + [] == AddressToString(a);
  }
}

/** The network functions the runtime knows and the fields each may write. */
module ActionTable {
  import opened Packets
  import opened MergeSpec

  datatype NF = pktgen | dnf_firewall | dnf_loadbalancer | proxy | compressor

  function WriteFields(nf: NF): (fields: set<Field>)
    ensures fields <= MERGEABLE
  {
    match nf
    case proxy => {DIP, DPORT}
    case compressor => {PAYLOAD}
    case _ => {}
  }

  /** The write set of every node of a service graph. */
  function WritesOfNodes(nodes: map<int, NF>): WriteTable {
    map id | id in nodes :: WriteFields(nodes[id])
  }

  class ActionTable {
    var writeFieldsMap: map<NF, set<Field>>

    ghost predicate Valid()
      reads this
    {
      forall nf: NF :: nf in writeFieldsMap && writeFieldsMap[nf] == WriteFields(nf)
    }

    constructor ()
      ensures Valid()
    {
      writeFieldsMap := map[];
      new;
      writeFieldsMap := writeFieldsMap[dnf_firewall := {}];
      writeFieldsMap := writeFieldsMap[proxy := {DIP, DPORT}];
      writeFieldsMap := writeFieldsMap[compressor := {PAYLOAD}];
      writeFieldsMap := writeFieldsMap[dnf_loadbalancer := {}];
      writeFieldsMap := writeFieldsMap[pktgen := {}];
      forall nf: NF
        ensures nf in writeFieldsMap && writeFieldsMap[nf] == WriteFields(nf)
      {
        match nf
        case pktgen =>
        case dnf_firewall =>
        case dnf_loadbalancer =>
        case proxy =>
        case compressor =>
      }
    }

    function GetWriteFields(nf: NF): (fields: set<Field>)
      requires Valid()
      reads this
      ensures fields == WriteFields(nf)
    {
      writeFieldsMap[nf]
    }
  }

  /** No packet ever counts as written outside the mergeable fields, so the
      merge's switch over fields never takes its default branch. */
  lemma MergedFieldsAreMergeable<T(!new)>(items: seq<ConflictItem>, nodes: map<int, NF>, m: LiveMap<T>)
    requires Irreflexive(items)
    requires forall k :: k in m ==> k in nodes && m[k].written == WriteFields(nodes[k])
    ensures forall k :: k in Loop(items, WritesOfNodes(nodes), m) ==> Loop(items, WritesOfNodes(nodes), m)[k].written <= MERGEABLE
  {
    LoopWritesWithin(items, WritesOfNodes(nodes), m, MERGEABLE);
  }
}

/** `deploy_to_all` (cloudstack/big_patch.py:2259-2477): every node entry is
    defaulted and built, then routed to the per-phase work queues; the first
    XenServer compute node of each pool becomes its master and the later
    ones its slaves, while per-pool bash arrays grow for the master's IP
    assignment script. Then the package pre-flight checks run, and the
    deployment phases start in a fixed order. */
module CloudStackDeploy {
  import opened Py
  import opened PyStrings
  import opened CloudStackNodes
  import opened CloudStackArrays

  /** One XenServer pool's entries in `MASTER_NODES`, `POOL_SIZES` and the
      six per-pool strings. The source keeps eight dicts that always gain
      the same key at the same time, so they are one map of these records. */
  datatype Pool = Pool(
    master: Node,
    size: int,
    slaveNameLabels: string,
    bondIps: string,
    bondMasks: string,
    bondGateways: string,
    bondVlans: string,
    bondInets: string)

  /** Everything the routing loop updates: the seven work queues (as the
      sequence of nodes put on each), `MANAGEMENT_NODE` and the pools. */
  datatype RunState = RunState(
    nodeQ: seq<Node>,
    nodeMgmtIntfQ: seq<Node>,
    xenCheckBondQ: seq<Node>,
    xenMasterNodeQ: seq<Node>,
    xenMasterNodeRebootQ: seq<Node>,
    xenSlaveNodeQ: seq<Node>,
    xenSlaveNodeRebootQ: seq<Node>,
    managementNode: Option<Node>,
    pools: map<Value, Pool>)

  /** Empty queues and tables, as at program start. */
  const Init: RunState := RunState([], [], [], [], [], [], [], None, map[])

  /** A node that takes part in XenServer pool formation. */
  predicate XenCompute(n: Node, xen: bool) {
    xen && IsCompute(n)
  }

  // ---------------------------------------------------------------------
  // What a master and a slave contribute to the per-pool arrays

  datatype MasterRow = MasterRow(vlan: string, inet: string)

  /** A master's bridge: its vlan (falsy written as `""`) and its inet. */
  function ReadMasterRow(bridge: Value): Result<MasterRow> {
    var vlan :- VlanText(bridge);
    var inet :- FieldText(bridge, "inet");
    Ok(MasterRow(vlan, inet))
  }

  function ReadMasterRows(items: seq<Value>): (r: Result<seq<MasterRow>>)
    ensures r.Ok? ==> |r.value| == |items|
    decreases |items|
  {
    if |items| == 0 then Ok([])
    else
      var front :- ReadMasterRows(items[..|items| - 1]);
      var last :- ReadMasterRow(items[|items| - 1]);
      Ok(front + [last])
  }

  function MasterRows(bridges: Value): Result<seq<MasterRow>> {
    if !Truthy(bridges) then Ok([])
    else
      var items :- Iterate(bridges);
      ReadMasterRows(items)
  }

  function MasterVlans(rows: seq<MasterRow>): (r: seq<string>)
    ensures |r| == |rows| && forall k :: 0 <= k < |rows| ==> r[k] == rows[k].vlan
  {
    seq(|rows|, k requires 0 <= k < |rows| => rows[k].vlan)
  }

  function MasterInets(rows: seq<MasterRow>): (r: seq<string>)
    ensures |r| == |rows| && forall k :: 0 <= k < |rows| ==> r[k] == rows[k].inet
  {
    seq(|rows|, k requires 0 <= k < |rows| => rows[k].inet)
  }

  datatype SlaveRow = SlaveRow(address: string, netmask: string, gateway: string)

  /** A slave's bridge: its optional address, netmask and gateway. */
  function ReadSlaveRow(bridge: Value): Result<SlaveRow> {
    var address :- OptionalText(bridge, "address");
    var netmask :- OptionalText(bridge, "netmask");
    var gateway :- OptionalText(bridge, "gateway");
    Ok(SlaveRow(address, netmask, gateway))
  }

  function ReadSlaveRows(items: seq<Value>): (r: Result<seq<SlaveRow>>)
    ensures r.Ok? ==> |r.value| == |items|
    decreases |items|
  {
    if |items| == 0 then Ok([])
    else
      var front :- ReadSlaveRows(items[..|items| - 1]);
      var last :- ReadSlaveRow(items[|items| - 1]);
      Ok(front + [last])
  }

  function SlaveRows(bridges: Value): Result<seq<SlaveRow>> {
    if !Truthy(bridges) then Ok([])
    else
      var items :- Iterate(bridges);
      ReadSlaveRows(items)
  }

  function SlaveAddresses(rows: seq<SlaveRow>): (r: seq<string>)
    ensures |r| == |rows| && forall k :: 0 <= k < |rows| ==> r[k] == rows[k].address
  {
    seq(|rows|, k requires 0 <= k < |rows| => rows[k].address)
  }

  function SlaveNetmasks(rows: seq<SlaveRow>): (r: seq<string>)
    ensures |r| == |rows| && forall k :: 0 <= k < |rows| ==> r[k] == rows[k].netmask
  {
    seq(|rows|, k requires 0 <= k < |rows| => rows[k].netmask)
  }

  function SlaveGateways(rows: seq<SlaveRow>): (r: seq<string>)
    ensures |r| == |rows| && forall k :: 0 <= k < |rows| ==> r[k] == rows[k].gateway
  {
    seq(|rows|, k requires 0 <= k < |rows| => rows[k].gateway)
  }

  // ---------------------------------------------------------------------
  // Routing one node

  /** A management node becomes `MANAGEMENT_NODE`; any other node goes on
      `node_q`, `node_mgmtintf_q` and `xen_check_bond_q`. */
  function Enqueue(st: RunState, n: Node): (r: RunState)
    ensures r.nodeQ == st.nodeQ + (if IsManagement(n) then [] else [n])
    ensures r.nodeMgmtIntfQ == st.nodeMgmtIntfQ + (if IsManagement(n) then [] else [n])
    ensures r.xenCheckBondQ == st.xenCheckBondQ + (if IsManagement(n) then [] else [n])
    ensures r.managementNode == if IsManagement(n) then Some(n) else st.managementNode
    ensures r.pools == st.pools
    ensures r.xenMasterNodeQ == st.xenMasterNodeQ && r.xenMasterNodeRebootQ == st.xenMasterNodeRebootQ
    ensures r.xenSlaveNodeQ == st.xenSlaveNodeQ && r.xenSlaveNodeRebootQ == st.xenSlaveNodeRebootQ
  {
    if IsManagement(n) then st.(managementNode := Some(n))
    else st.(nodeQ := st.nodeQ + [n], nodeMgmtIntfQ := st.nodeMgmtIntfQ + [n],
             xenCheckBondQ := st.xenCheckBondQ + [n])
  }

  /** A new pool: its master, size 1, the four slave-side arrays opened and
      the master's vlans and inets as complete arrays. This is the corrected
      form; `MasterArraysAsWritten` is what the source writes. */
  function NewPool(n: Node, rows: seq<MasterRow>): Pool {
    Pool(n, 1, "(", "(", "(", "(", BashArray(MasterVlans(rows)), BashArray(MasterInets(rows)))
  }

  /** A pool with one more member: its label and its bridges' addresses appended.
      (`POOL_SIZES.get(pool, 1)` always finds the pool: its master put it there.) */
  function AddMember(pool: Pool, n: Node, rows: seq<SlaveRow>): Pool {
    pool.(size := pool.size + 1,
          slaveNameLabels := pool.slaveNameLabels + Element(Text(n.hostNameLabel)),
          bondIps := pool.bondIps + Elements(SlaveAddresses(rows)),
          bondMasks := pool.bondMasks + Elements(SlaveNetmasks(rows)),
          bondGateways := pool.bondGateways + Elements(SlaveGateways(rows)))
  }

  /** The first compute node of a pool becomes its master. */
  function BecomeMaster(st: RunState, n: Node, rows: seq<MasterRow>): (r: RunState)
    ensures r.pools == st.pools[n.xenserverPool := NewPool(n, rows)]
    ensures r.xenMasterNodeQ == st.xenMasterNodeQ + [n] && r.xenMasterNodeRebootQ == st.xenMasterNodeRebootQ + [n]
    ensures r.xenSlaveNodeQ == st.xenSlaveNodeQ && r.xenSlaveNodeRebootQ == st.xenSlaveNodeRebootQ
    ensures r.nodeQ == st.nodeQ && r.nodeMgmtIntfQ == st.nodeMgmtIntfQ && r.xenCheckBondQ == st.xenCheckBondQ
    ensures r.managementNode == st.managementNode
  {
    st.(pools := st.pools[n.xenserverPool := NewPool(n, rows)],
        xenMasterNodeQ := st.xenMasterNodeQ + [n],
        xenMasterNodeRebootQ := st.xenMasterNodeRebootQ + [n])
  }

  /** A later compute node of an existing pool joins it as a slave. */
  function BecomeSlave(st: RunState, n: Node, rows: seq<SlaveRow>): (r: RunState)
    requires n.xenserverPool in st.pools
    ensures r.pools == st.pools[n.xenserverPool := AddMember(st.pools[n.xenserverPool], n, rows)]
    ensures r.xenSlaveNodeQ == st.xenSlaveNodeQ + [n] && r.xenSlaveNodeRebootQ == st.xenSlaveNodeRebootQ + [n]
    ensures r.xenMasterNodeQ == st.xenMasterNodeQ && r.xenMasterNodeRebootQ == st.xenMasterNodeRebootQ
    ensures r.nodeQ == st.nodeQ && r.nodeMgmtIntfQ == st.nodeMgmtIntfQ && r.xenCheckBondQ == st.xenCheckBondQ
    ensures r.managementNode == st.managementNode
  {
    var p := n.xenserverPool;
    st.(pools := st.pools[p := AddMember(st.pools[p], n, rows)],
        xenSlaveNodeQ := st.xenSlaveNodeQ + [n],
        xenSlaveNodeRebootQ := st.xenSlaveNodeRebootQ + [n])
  }

  /** The body of the routing loop for one built node (cloudstack/big_patch.py:2302-2352). */
  function Route(st: RunState, n: Node, xen: bool): (r: Result<RunState>)
    ensures !XenCompute(n, xen) ==> r == Ok(Enqueue(st, n))
    ensures XenCompute(n, xen) && n.xenserverPool !in st.pools && !Hashable(n.xenserverPool) ==> r == Err(TypeError)
    ensures r.Ok? ==> r.value.managementNode == Enqueue(st, n).managementNode
    ensures r.Ok? && XenCompute(n, xen) ==> r.value.pools.Keys == st.pools.Keys + {n.xenserverPool}
    ensures r.Ok? && XenCompute(n, xen) && n.xenserverPool !in st.pools ==>
              r.value.pools[n.xenserverPool].master == n && r.value.pools[n.xenserverPool].size == 1
    ensures r.Ok? && XenCompute(n, xen) && n.xenserverPool in st.pools ==>
              r.value.pools[n.xenserverPool].master == st.pools[n.xenserverPool].master
              && r.value.pools[n.xenserverPool].size == st.pools[n.xenserverPool].size + 1
  {
    var st1 := Enqueue(st, n);
    var p := n.xenserverPool;
    if XenCompute(n, xen) && p !in st.pools then
      if !Hashable(p) then Err(TypeError)
      else
        var rows :- MasterRows(n.bridges);
        Ok(BecomeMaster(st1, n, rows))
    else if XenCompute(n, xen) then
      var rows :- SlaveRows(n.bridges);
      Ok(BecomeSlave(st1, n, rows))
    else Ok(st1)
  }

  /** Built nodes routed in input order. */
  function RouteAll(nodes: seq<Node>, xen: bool): (r: Result<RunState>)
    decreases |nodes|
  {
    if |nodes| == 0 then Ok(Init)
    else
      var st :- RouteAll(nodes[..|nodes| - 1], xen);
      Route(st, nodes[|nodes| - 1], xen)
  }

  /** `key in entry` for a node entry that is not a dict: a substring test
      on a string, an element test on a list, TypeError on a scalar. */
  function EntryHas(v: Value, key: string): (r: Result<bool>)
    requires !v.Dict?
    ensures r.Ok? <==> v.Str? || v.List?
    ensures v.Str? ==> r == Ok(Contains(v.s, key))
    ensures v.List? ==> r == Ok(Str(key) in v.items)
  {
    match v
    case Str(s) => Ok(Contains(s, key))
    case List(items) => Ok(Str(key) in items)
    case _ => Err(TypeError)
  }

  /** The `if key not in node_config:` tests of `keys` on an entry that is
      not a dict. The first key the test finds missing reads
      `config['default_<key>']` and then assigns into the entry, which fails;
      `None` when every test finds its key. */
  function MissingKeyError(v: Value, config: map<string, Value>, keys: seq<string>): (r: Option<PyError>)
    requires !v.Dict?
    ensures r.Some? ==> r.value == TypeError || (r.value.KeyError? && r.value.key !in config)
    ensures (forall k :: k in keys ==> DefaultKey(k) in config) ==> r.None? || r.value == TypeError
    ensures (v.Int? || v.Bool? || v.Null?) && |keys| > 0 ==> r == Some(TypeError)
    decreases |keys|
  {
    if |keys| == 0 then None
    else
      match EntryHas(v, keys[0])
      case Err(e) => Some(e)
      case Ok(found) =>
        if found then MissingKeyError(v, config, keys[1..])
        else if DefaultKey(keys[0]) in config then Some(TypeError)
        else Some(KeyError(DefaultKey(keys[0])))
  }

  /** The exception the defaulting loop body (cloudstack/big_patch.py:2277-2299)
      raises for a node entry that is not a dict. The right-hand side of each
      assignment is read before the assignment fails, so a missing
      `default_<key>` or `pxe_gw` raises KeyError first; otherwise the
      assignment into the entry raises TypeError. */
  function NonDictEntryError(v: Value, config: map<string, Value>, xen: bool): (e: PyError)
    requires !v.Dict?
    ensures e == TypeError || (e.KeyError? && e.key !in config)
    ensures (v.Int? || v.Bool? || v.Null?) ==> e == TypeError
    ensures (forall k :: k in DefaultOrder(xen) ==> DefaultKey(k) in config) && "pxe_gw" in config ==> e == TypeError
  {
    match MissingKeyError(v, config, DefaultOrder(xen))
    case Some(e) => e
    case None =>
      var has := EntryHas(v, "host_name_label");
      if has.Err? then has.error
      else if !has.value then TypeError
      else if "pxe_gw" in config then TypeError
      else KeyError("pxe_gw")
  }

  /** The first test reads `default_pxe_interface` when the entry lacks
      `pxe_interface`: a string or list entry with no default for it raises
      KeyError, not TypeError. */
  lemma NonDictMissingDefault(v: Value, config: map<string, Value>, xen: bool)
    requires v.Str? || v.List?
    requires EntryHas(v, "pxe_interface") == Ok(false)
    ensures NonDictEntryError(v, config, xen) ==
              if "default_pxe_interface" in config then TypeError else KeyError("default_pxe_interface")
  {
    assert DefaultKey("pxe_interface") == "default_pxe_interface";
    var keys := DefaultOrder(xen);
    assert |keys| > 0 && keys[0] == "pxe_interface";
    assert MissingKeyError(v, config, keys) ==
             Some(if DefaultKey("pxe_interface") in config then TypeError else KeyError(DefaultKey("pxe_interface")));
  }

  /** The entry's own keys when it is a dict, or the exception the defaulting raises. */
  function AsNodeConfig(v: Value, config: map<string, Value>, xen: bool): (r: Result<map<string, Value>>)
    ensures r.Ok? <==> v.Dict?
    ensures r.Ok? ==> r.value == v.fields
    ensures !v.Dict? ==> r == Err(NonDictEntryError(v, config, xen))
  {
    if v.Dict? then Ok(v.fields) else Err(NonDictEntryError(v, config, xen))
  }

  /** One node entry defaulted and built. */
  function BuildEntry(item: Value, config: map<string, Value>, xen: bool): (r: Result<Node>)
    ensures item.Dict? ==> r == BuildNode(item.fields, config, xen)
    ensures !item.Dict? ==> r.Err? && (r.error == TypeError || (r.error.KeyError? && r.error.key !in config))
  {
    var nc :- AsNodeConfig(item, config, xen);
    BuildNode(nc, config, xen)
  }

  /** One pass of the loop body: build the entry, then route the node. */
  function Step(st: RunState, item: Value, config: map<string, Value>, xen: bool): Result<RunState> {
    var node :- BuildEntry(item, config, xen);
    Route(st, node, xen)
  }

  /** The loop over `config['nodes']`: each entry is built and then routed
      before the next one is read. */
  function ApplyAll(items: seq<Value>, config: map<string, Value>, xen: bool): (r: Result<RunState>)
    decreases |items|
  {
    if |items| == 0 then Ok(Init)
    else
      var st :- ApplyAll(items[..|items| - 1], config, xen);
      Step(st, items[|items| - 1], config, xen)
  }

  /** Every node entry built, in order. */
  function BuildEach(items: seq<Value>, config: map<string, Value>, xen: bool): (r: Result<seq<Node>>)
    ensures r.Ok? ==> |r.value| == |items|
    decreases |items|
  {
    if |items| == 0 then Ok([])
    else
      var front :- BuildEach(items[..|items| - 1], config, xen);
      var node :- BuildEntry(items[|items| - 1], config, xen);
      Ok(front + [node])
  }

  /** When the loop completes, its state is that of routing the built nodes. */
  lemma {:induction false} ApplyAllRoutesBuiltNodes(items: seq<Value>, config: map<string, Value>, xen: bool)
    requires ApplyAll(items, config, xen).Ok?
    ensures BuildEach(items, config, xen).Ok?
    ensures RouteAll(BuildEach(items, config, xen).value, xen) == ApplyAll(items, config, xen)
    decreases |items|
  {
    if |items| > 0 {
      var front := items[..|items| - 1];
      ApplyAllRoutesBuiltNodes(front, config, xen);
      var nodes := BuildEach(items, config, xen).value;
      assert nodes[..|nodes| - 1] == BuildEach(front, config, xen).value;
    }
  }

  /** A pool's four slave-side arrays closed. */
  function ClosePool(pool: Pool): Pool {
    pool.(slaveNameLabels := pool.slaveNameLabels + ")", bondIps := pool.bondIps + ")",
          bondMasks := pool.bondMasks + ")", bondGateways := pool.bondGateways + ")")
  }

  /** `for pool in MASTER_NODES.keys()`: close four of the six arrays of every pool. */
  function Close(st: RunState): (r: RunState)
    ensures r.pools.Keys == st.pools.Keys
    ensures forall p :: p in st.pools ==> r.pools[p] == ClosePool(st.pools[p])
    ensures r.nodeQ == st.nodeQ && r.nodeMgmtIntfQ == st.nodeMgmtIntfQ && r.xenCheckBondQ == st.xenCheckBondQ
    ensures r.xenMasterNodeQ == st.xenMasterNodeQ && r.xenMasterNodeRebootQ == st.xenMasterNodeRebootQ
    ensures r.xenSlaveNodeQ == st.xenSlaveNodeQ && r.xenSlaveNodeRebootQ == st.xenSlaveNodeRebootQ
    ensures r.managementNode == st.managementNode
  {
    st.(pools := map p | p in st.pools :: ClosePool(st.pools[p]))
  }

  // ---------------------------------------------------------------------
  // Reference definitions over the node list

  /** The nodes that are not management nodes, in order. */
  function NonManagement(nodes: seq<Node>): (r: seq<Node>)
    ensures |r| <= |nodes|
    decreases |nodes|
  {
    if |nodes| == 0 then []
    else NonManagement(nodes[..|nodes| - 1]) +
         (if IsManagement(nodes[|nodes| - 1]) then [] else [nodes[|nodes| - 1]])
  }

  /** The last management node, if any. */
  function LastManagement(nodes: seq<Node>): Option<Node>
    decreases |nodes|
  {
    if |nodes| == 0 then None
    else if IsManagement(nodes[|nodes| - 1]) then Some(nodes[|nodes| - 1])
    else LastManagement(nodes[..|nodes| - 1])
  }

  /** The XenServer compute nodes of pool `p`, in order. */
  function PoolMembers(nodes: seq<Node>, p: Value, xen: bool): seq<Node>
    decreases |nodes|
  {
    if |nodes| == 0 then []
    else
      var n := nodes[|nodes| - 1];
      PoolMembers(nodes[..|nodes| - 1], p, xen) + (if XenCompute(n, xen) && n.xenserverPool == p then [n] else [])
  }

  /** The XenServer compute nodes, in order. */
  function XenComputes(nodes: seq<Node>, xen: bool): seq<Node>
    decreases |nodes|
  {
    if |nodes| == 0 then []
    else XenComputes(nodes[..|nodes| - 1], xen) +
         (if XenCompute(nodes[|nodes| - 1], xen) then [nodes[|nodes| - 1]] else [])
  }

  /** The pools the XenServer compute nodes name. */
  function Pools(nodes: seq<Node>, xen: bool): set<Value>
    decreases |nodes|
  {
    if |nodes| == 0 then {}
    else
      var n := nodes[|nodes| - 1];
      Pools(nodes[..|nodes| - 1], xen) + (if XenCompute(n, xen) then {n.xenserverPool} else {})
  }

  /** The XenServer compute nodes that are the first of their pool, in order. */
  function Leaders(nodes: seq<Node>, xen: bool): seq<Node>
    decreases |nodes|
  {
    if |nodes| == 0 then []
    else
      var front := nodes[..|nodes| - 1];
      var n := nodes[|nodes| - 1];
      Leaders(front, xen) + (if XenCompute(n, xen) && n.xenserverPool !in Pools(front, xen) then [n] else [])
  }

  /** The XenServer compute nodes whose pool already has a member, in order. */
  function Followers(nodes: seq<Node>, xen: bool): seq<Node>
    decreases |nodes|
  {
    if |nodes| == 0 then []
    else
      var front := nodes[..|nodes| - 1];
      var n := nodes[|nodes| - 1];
      Followers(front, xen) + (if XenCompute(n, xen) && n.xenserverPool in Pools(front, xen) then [n] else [])
  }

  function Labels(nodes: seq<Node>): (r: seq<string>)
    ensures |r| == |nodes| && forall k :: 0 <= k < |nodes| ==> r[k] == Text(nodes[k].hostNameLabel)
  {
    seq(|nodes|, k requires 0 <= k < |nodes| => Text(nodes[k].hostNameLabel))
  }

  // ---------------------------------------------------------------------
  // Properties of the routing

  /** Each non-management node is put exactly once on each of `node_q`,
      `node_mgmtintf_q` and `xen_check_bond_q`, in input order; the last
      management node is `MANAGEMENT_NODE`. */
  lemma {:induction false} RouteAllQueues(nodes: seq<Node>, xen: bool)
    requires RouteAll(nodes, xen).Ok?
    ensures RouteAll(nodes, xen).value.nodeQ == NonManagement(nodes)
    ensures RouteAll(nodes, xen).value.nodeMgmtIntfQ == NonManagement(nodes)
    ensures RouteAll(nodes, xen).value.xenCheckBondQ == NonManagement(nodes)
    ensures RouteAll(nodes, xen).value.managementNode == LastManagement(nodes)
    decreases |nodes|
  {
    if |nodes| > 0 {
      RouteAllQueues(nodes[..|nodes| - 1], xen);
    }
  }

  /** What the tables say about pool `p` after routing `nodes`: its master
      is its first XenServer compute node, its size the number of those
      nodes, and its slave labels those of the later ones, in order. */
  predicate PoolFacts(st: RunState, nodes: seq<Node>, xen: bool, p: Value) {
    p in st.pools ==>
      && |PoolMembers(nodes, p, xen)| > 0
      && st.pools[p].master == PoolMembers(nodes, p, xen)[0]
      && st.pools[p].size == |PoolMembers(nodes, p, xen)|
      && st.pools[p].slaveNameLabels == "(" + Elements(Labels(PoolMembers(nodes, p, xen)[1..]))
  }

  lemma PoolMembersSnoc(front: seq<Node>, n: Node, p: Value, xen: bool)
    ensures PoolMembers(front + [n], p, xen) ==
            PoolMembers(front, p, xen) + (if XenCompute(n, xen) && n.xenserverPool == p then [n] else [])
  {
    var nodes := front + [n];
    assert nodes[..|nodes| - 1] == front;
  }

  lemma PoolFactsOtherPool(st: RunState, st': RunState, front: seq<Node>, nodes: seq<Node>, xen: bool, p: Value)
    requires PoolFacts(st, front, xen, p)
    requires PoolMembers(nodes, p, xen) == PoolMembers(front, p, xen)
    requires p in st'.pools <==> p in st.pools
    requires p in st.pools ==>
               st'.pools[p].master == st.pools[p].master && st'.pools[p].size == st.pools[p].size &&
               st'.pools[p].slaveNameLabels == st.pools[p].slaveNameLabels
    ensures PoolFacts(st', nodes, xen, p)
  {
  }

  lemma PoolFactsSlave(st: RunState, front: seq<Node>, nodes: seq<Node>, n: Node, xen: bool, rows: seq<SlaveRow>)
    requires XenCompute(n, xen) && n.xenserverPool in st.pools
    requires PoolFacts(st, front, xen, n.xenserverPool)
    requires PoolMembers(nodes, n.xenserverPool, xen) == PoolMembers(front, n.xenserverPool, xen) + [n]
    ensures PoolFacts(BecomeSlave(st, n, rows), nodes, xen, n.xenserverPool)
  {
    var p := n.xenserverPool;
    var before := PoolMembers(front, p, xen);
    SlaveLabelsSnoc(before, n);
    var r := BecomeSlave(st, n, rows);
    assert r.pools[p].slaveNameLabels == st.pools[p].slaveNameLabels + Element(Text(n.hostNameLabel));
  }

  lemma SlaveLabelsSnoc(before: seq<Node>, n: Node)
    requires |before| > 0
    ensures "(" + Elements(Labels((before + [n])[1..])) ==
            "(" + Elements(Labels(before[1..])) + Element(Text(n.hostNameLabel))
  {
    var t := Text(n.hostNameLabel);
    var labels := Labels(before[1..]);
    assert (before + [n])[1..] == before[1..] + [n];
    assert Labels((before + [n])[1..]) == labels + [t];
    ElementsAppend(labels, t);
  }

  lemma PoolFactsMaster(st: RunState, nodes: seq<Node>, n: Node, xen: bool, rows: seq<MasterRow>)
    requires XenCompute(n, xen)
    requires PoolMembers(nodes, n.xenserverPool, xen) == [n]
    ensures PoolFacts(BecomeMaster(st, n, rows), nodes, xen, n.xenserverPool)
  {
    assert [n][1..] == [];
  }

  lemma PoolFactsStep(st: RunState, st': RunState, front: seq<Node>, n: Node, xen: bool, p: Value)
    requires Route(st, n, xen) == Ok(st')
    requires st.pools.Keys == Pools(front, xen)
    requires forall q :: q in Pools(front, xen) <==> |PoolMembers(front, q, xen)| > 0
    requires PoolFacts(st, front, xen, p)
    ensures PoolFacts(st', front + [n], xen, p)
  {
    var st1 := Enqueue(st, n);
    var nodes := front + [n];
    PoolMembersSnoc(front, n, p, xen);
    assert PoolFacts(st1, front, xen, p);
    if XenCompute(n, xen) && n.xenserverPool !in st.pools {
      var rows := MasterRows(n.bridges).value;
      assert st' == BecomeMaster(st1, n, rows);
      if n.xenserverPool == p {
        PoolFactsMaster(st1, nodes, n, xen, rows);
      } else {
        PoolFactsOtherPool(st1, st', front, nodes, xen, p);
      }
    } else if XenCompute(n, xen) {
      var rows := SlaveRows(n.bridges).value;
      assert st' == BecomeSlave(st1, n, rows);
      if n.xenserverPool == p {
        PoolFactsSlave(st1, front, nodes, n, xen, rows);
      } else {
        PoolFactsOtherPool(st1, st', front, nodes, xen, p);
      }
    } else {
      assert st' == st1;
      PoolFactsOtherPool(st1, st', front, nodes, xen, p);
    }
  }

  /** Routing a XenServer compute node makes its pool a master pool; nothing else adds one. */
  lemma RouteMasterKeys(st: RunState, n: Node, xen: bool)
    requires Route(st, n, xen).Ok?
    ensures Route(st, n, xen).value.pools.Keys ==
            st.pools.Keys + (if XenCompute(n, xen) then {n.xenserverPool} else {})
  {
    var st1 := Enqueue(st, n);
    if XenCompute(n, xen) && n.xenserverPool !in st.pools {
      assert Route(st, n, xen).value == BecomeMaster(st1, n, MasterRows(n.bridges).value);
    } else if XenCompute(n, xen) {
      assert Route(st, n, xen).value == BecomeSlave(st1, n, SlaveRows(n.bridges).value);
    }
  }

  /** Every pool named by a XenServer compute node has a master, and
      `PoolFacts` holds for every pool. */
  lemma {:induction false} RouteAllPools(nodes: seq<Node>, xen: bool)
    requires RouteAll(nodes, xen).Ok?
    ensures RouteAll(nodes, xen).value.pools.Keys == Pools(nodes, xen)
    ensures forall p :: PoolFacts(RouteAll(nodes, xen).value, nodes, xen, p)
    decreases |nodes|
  {
    if |nodes| > 0 {
      var front := nodes[..|nodes| - 1];
      var n := nodes[|nodes| - 1];
      RouteAllPools(front, xen);
      PoolsHaveMembers(front, xen);
      var st := RouteAll(front, xen).value;
      var st' := RouteAll(nodes, xen).value;
      assert Route(st, n, xen) == Ok(st');
      RouteMasterKeys(st, n, xen);
      assert nodes == front + [n];
      forall p
        ensures PoolFacts(st', nodes, xen, p)
      {
        PoolFactsStep(st, st', front, n, xen, p);
      }
    }
  }

  /** A pool is named by some XenServer compute node iff it has members. */
  lemma {:induction false} PoolsHaveMembers(nodes: seq<Node>, xen: bool)
    ensures forall p :: p in Pools(nodes, xen) <==> |PoolMembers(nodes, p, xen)| > 0
    decreases |nodes|
  {
    if |nodes| > 0 {
      PoolsHaveMembers(nodes[..|nodes| - 1], xen);
    }
  }

  /** The master queues hold the first node of each pool and the slave queues
      the later ones, each in input order. */
  lemma {:induction false} RouteAllMasterSlaveQueues(nodes: seq<Node>, xen: bool)
    requires RouteAll(nodes, xen).Ok?
    ensures var st := RouteAll(nodes, xen).value;
            && st.xenMasterNodeQ == Leaders(nodes, xen) && st.xenMasterNodeRebootQ == Leaders(nodes, xen)
            && st.xenSlaveNodeQ == Followers(nodes, xen) && st.xenSlaveNodeRebootQ == Followers(nodes, xen)
    decreases |nodes|
  {
    if |nodes| > 0 {
      var front := nodes[..|nodes| - 1];
      RouteAllMasterSlaveQueues(front, xen);
      RouteAllPools(front, xen);
    }
  }

  /** Masters and slaves partition the XenServer compute nodes. */
  lemma {:induction false} LeadersFollowersPartition(nodes: seq<Node>, xen: bool)
    ensures multiset(Leaders(nodes, xen)) + multiset(Followers(nodes, xen)) == multiset(XenComputes(nodes, xen))
    decreases |nodes|
  {
    if |nodes| > 0 {
      LeadersFollowersPartition(nodes[..|nodes| - 1], xen);
    }
  }

  /** There is one master per pool. */
  lemma {:induction false} LeadersPerPool(nodes: seq<Node>, xen: bool)
    ensures |Leaders(nodes, xen)| == |Pools(nodes, xen)|
    decreases |nodes|
  {
    if |nodes| > 0 {
      var front := nodes[..|nodes| - 1];
      var n := nodes[|nodes| - 1];
      LeadersPerPool(front, xen);
      if XenCompute(n, xen) && n.xenserverPool !in Pools(front, xen) {
        assert Pools(nodes, xen) == Pools(front, xen) + {n.xenserverPool};
      } else {
        assert Pools(nodes, xen) == Pools(front, xen);
      }
    }
  }

  lemma {:induction false} PoolMembersPrefix(nodes: seq<Node>, more: seq<Node>, p: Value, xen: bool)
    ensures PoolMembers(nodes + more, p, xen) == PoolMembers(nodes, p, xen) + PoolMembers(more, p, xen)
    decreases |more|
  {
    if |more| == 0 {
      assert nodes + more == nodes;
    } else {
      var front := more[..|more| - 1];
      assert (nodes + more)[..|nodes + more| - 1] == nodes + front;
      PoolMembersPrefix(nodes, front, p, xen);
    }
  }

  lemma {:induction false} RouteAllPrefix(nodes: seq<Node>, more: seq<Node>, xen: bool)
    requires RouteAll(nodes + more, xen).Ok?
    ensures RouteAll(nodes, xen).Ok?
    decreases |more|
  {
    if |more| == 0 {
      assert nodes + more == nodes;
    } else {
      var front := more[..|more| - 1];
      assert (nodes + more)[..|nodes + more| - 1] == nodes + front;
      RouteAllPrefix(nodes, front, xen);
    }
  }

  /** First wins: once a pool has a master, routing more nodes never replaces it. */
  lemma MasterNeverReplaced(nodes: seq<Node>, more: seq<Node>, xen: bool, p: Value)
    requires RouteAll(nodes + more, xen).Ok?
    requires RouteAll(nodes, xen).Ok? && p in RouteAll(nodes, xen).value.pools
    ensures p in RouteAll(nodes + more, xen).value.pools
    ensures RouteAll(nodes + more, xen).value.pools[p].master == RouteAll(nodes, xen).value.pools[p].master
  {
    RouteAllPools(nodes, xen);
    RouteAllPools(nodes + more, xen);
    PoolsHaveMembers(nodes + more, xen);
    PoolMembersPrefix(nodes, more, p, xen);
    var st := RouteAll(nodes, xen).value;
    var st' := RouteAll(nodes + more, xen).value;
    assert PoolFacts(st, nodes, xen, p);
    var members := PoolMembers(nodes + more, p, xen);
    assert |members| > 0 && members[0] == PoolMembers(nodes, p, xen)[0];
    assert p in Pools(nodes + more, xen);
    assert PoolFacts(st', nodes + more, xen, p);
  }

  /** `|xen_master_node_q| == |MASTER_NODES|`: exactly one master per pool. */
  lemma MasterQueueMatchesPools(nodes: seq<Node>, xen: bool)
    requires RouteAll(nodes, xen).Ok?
    ensures |RouteAll(nodes, xen).value.xenMasterNodeQ| == |RouteAll(nodes, xen).value.pools|
  {
    RouteAllMasterSlaveQueues(nodes, xen);
    RouteAllPools(nodes, xen);
    LeadersPerPool(nodes, xen);
    assert RouteAll(nodes, xen).value.pools.Keys == Pools(nodes, xen);
  }

  /** After closing, each pool's slave-label string is the bash array of the
      labels of its later members. */
  lemma ClosedSlaveLabels(nodes: seq<Node>, xen: bool, p: Value)
    requires RouteAll(nodes, xen).Ok? && p in RouteAll(nodes, xen).value.pools
    ensures |PoolMembers(nodes, p, xen)| > 0
    ensures Close(RouteAll(nodes, xen).value).pools[p].slaveNameLabels
            == BashArray(Labels(PoolMembers(nodes, p, xen)[1..]))
  {
    RouteAllPools(nodes, xen);
    var st := RouteAll(nodes, xen).value;
    assert PoolFacts(st, nodes, xen, p);
    assert Close(st).pools[p].slaveNameLabels == st.pools[p].slaveNameLabels + ")";
  }

  // ---------------------------------------------------------------------
  // Shape of the per-pool arrays

  /** A string that opens a bash array. */
  predicate Opened(s: string) {
    |s| > 0 && s[0] == '('
  }

  /** A string that opens and closes a bash array. */
  predicate Bracketed(s: string) {
    |s| > 1 && s[0] == '(' && s[|s| - 1] == ')'
  }

  /** While routing, the four slave-side strings of every pool are open and
      the two master-side strings are complete arrays. */
  predicate ArraysShaped(st: RunState) {
    forall p :: p in st.pools ==>
      && Opened(st.pools[p].slaveNameLabels) && Opened(st.pools[p].bondIps)
      && Opened(st.pools[p].bondMasks) && Opened(st.pools[p].bondGateways)
      && Bracketed(st.pools[p].bondVlans) && Bracketed(st.pools[p].bondInets)
  }

  lemma MasterKeepsArraysShaped(st: RunState, n: Node, rows: seq<MasterRow>)
    requires ArraysShaped(st)
    ensures ArraysShaped(BecomeMaster(st, n, rows))
  {
    var r := BecomeMaster(st, n, rows);
    forall q | q in r.pools
      ensures Opened(r.pools[q].slaveNameLabels) && Opened(r.pools[q].bondIps)
      ensures Opened(r.pools[q].bondMasks) && Opened(r.pools[q].bondGateways)
      ensures Bracketed(r.pools[q].bondVlans) && Bracketed(r.pools[q].bondInets)
    {
      if q == n.xenserverPool {
        assert r.pools[q].bondVlans == "(" + Elements(MasterVlans(rows)) + ")";
        assert r.pools[q].bondInets == "(" + Elements(MasterInets(rows)) + ")";
      }
    }
  }

  lemma SlaveKeepsArraysShaped(st: RunState, n: Node, rows: seq<SlaveRow>)
    requires ArraysShaped(st) && n.xenserverPool in st.pools
    ensures ArraysShaped(BecomeSlave(st, n, rows))
  {
    var r := BecomeSlave(st, n, rows);
    forall q | q in r.pools
      ensures Opened(r.pools[q].slaveNameLabels) && Opened(r.pools[q].bondIps)
      ensures Opened(r.pools[q].bondMasks) && Opened(r.pools[q].bondGateways)
      ensures Bracketed(r.pools[q].bondVlans) && Bracketed(r.pools[q].bondInets)
    {
    }
  }

  lemma RouteKeepsArraysShaped(st: RunState, n: Node, xen: bool)
    requires ArraysShaped(st) && Route(st, n, xen).Ok?
    ensures ArraysShaped(Route(st, n, xen).value)
  {
    var st1 := Enqueue(st, n);
    assert ArraysShaped(st1);
    var p := n.xenserverPool;
    if XenCompute(n, xen) && p !in st.pools {
      MasterKeepsArraysShaped(st1, n, MasterRows(n.bridges).value);
    } else if XenCompute(n, xen) {
      SlaveKeepsArraysShaped(st1, n, SlaveRows(n.bridges).value);
    }
  }

  lemma {:induction false} RouteAllArraysShaped(nodes: seq<Node>, xen: bool)
    requires RouteAll(nodes, xen).Ok?
    ensures ArraysShaped(RouteAll(nodes, xen).value)
    decreases |nodes|
  {
    if |nodes| > 0 {
      var front := nodes[..|nodes| - 1];
      RouteAllArraysShaped(front, xen);
      RouteKeepsArraysShaped(RouteAll(front, xen).value, nodes[|nodes| - 1], xen);
    }
  }

  /** After the closing loop every one of the six strings handed to the IP
      assignment script of every pool is a complete bash array. */
  lemma ClosedArraysBracketed(nodes: seq<Node>, xen: bool, p: Value)
    requires RouteAll(nodes, xen).Ok? && p in RouteAll(nodes, xen).value.pools
    ensures var c := Close(RouteAll(nodes, xen).value);
            && Bracketed(c.pools[p].slaveNameLabels) && Bracketed(c.pools[p].bondIps)
            && Bracketed(c.pools[p].bondMasks) && Bracketed(c.pools[p].bondGateways)
            && Bracketed(c.pools[p].bondVlans) && Bracketed(c.pools[p].bondInets)
  {
    RouteAllArraysShaped(nodes, xen);
  }

  /** A master's `bond_vlans` and `bond_inets` as the source builds them:
      both open with `(`, and the elements and the closing `)` are appended
      only inside `if node.bridges:`; the closing loop over the pools does
      not touch these two strings. */
  function MasterArraysAsWritten(bridges: Value): (r: Result<(string, string)>)
    ensures r.Ok? <==> MasterRows(bridges).Ok?
    ensures r.Err? ==> r.error == MasterRows(bridges).error
    ensures r.Ok? && Truthy(bridges) ==>
              r.value == (BashArray(MasterVlans(MasterRows(bridges).value)),
                          BashArray(MasterInets(MasterRows(bridges).value)))
  {
    if !Truthy(bridges) then Ok(("(", "("))
    else
      var items :- Iterate(bridges);
      var rows :- ReadMasterRows(items);
      Ok(("(" + Elements(MasterVlans(rows)) + ")", "(" + Elements(MasterInets(rows)) + ")"))
  }

  /** The arrays as written agree with the corrected ones (those of
      `CloudStackDeployment.MasterArrays`) exactly when the master has bridges. */
  lemma MasterArraysAsWrittenAgree(bridges: Value)
    requires MasterRows(bridges).Ok?
    ensures MasterArraysAsWritten(bridges).value ==
              (BashArray(MasterVlans(MasterRows(bridges).value)),
               BashArray(MasterInets(MasterRows(bridges).value)))
            <==> Truthy(bridges)
  {
    if !Truthy(bridges) {
      assert MasterVlans([]) == [];
      assert |BashArray(MasterVlans([]))| == 2;
    }
  }

  /** Every pool's `bond_vlans` and `bond_inets` are the corrected arrays of
      its master's bridge rows. */
  predicate MasterArraysOfMaster(st: RunState) {
    forall p :: p in st.pools ==>
      && MasterRows(st.pools[p].master.bridges).Ok?
      && st.pools[p].bondVlans == BashArray(MasterVlans(MasterRows(st.pools[p].master.bridges).value))
      && st.pools[p].bondInets == BashArray(MasterInets(MasterRows(st.pools[p].master.bridges).value))
  }

  lemma RouteKeepsMasterArrays(st: RunState, n: Node, xen: bool)
    requires MasterArraysOfMaster(st) && Route(st, n, xen).Ok?
    ensures MasterArraysOfMaster(Route(st, n, xen).value)
  {
    var st1 := Enqueue(st, n);
    assert MasterArraysOfMaster(st1);
    var p := n.xenserverPool;
    if XenCompute(n, xen) && p !in st.pools {
      var r := BecomeMaster(st1, n, MasterRows(n.bridges).value);
      assert r.pools[p] == NewPool(n, MasterRows(n.bridges).value);
      assert MasterArraysOfMaster(r);
    } else if XenCompute(n, xen) {
      var r := BecomeSlave(st1, n, SlaveRows(n.bridges).value);
      assert MasterArraysOfMaster(r);
    }
  }

  lemma {:induction false} RouteAllMasterArraysOfMaster(nodes: seq<Node>, xen: bool)
    requires RouteAll(nodes, xen).Ok?
    ensures MasterArraysOfMaster(RouteAll(nodes, xen).value)
    decreases |nodes|
  {
    if |nodes| > 0 {
      var front := nodes[..|nodes| - 1];
      RouteAllMasterArraysOfMaster(front, xen);
      RouteKeepsMasterArrays(RouteAll(front, xen).value, nodes[|nodes| - 1], xen);
    }
  }

  /** Where the routing model departs from the source: a pool's master-side
      strings are the arrays of its master's bridge rows, and they coincide
      with what the source writes (`MasterArraysAsWritten`) exactly when the
      master has bridges. */
  lemma RoutedMasterArraysAsWritten(nodes: seq<Node>, xen: bool, p: Value)
    requires RouteAll(nodes, xen).Ok? && p in RouteAll(nodes, xen).value.pools
    ensures var pool := RouteAll(nodes, xen).value.pools[p];
            && MasterArraysAsWritten(pool.master.bridges).Ok?
            && ((pool.bondVlans, pool.bondInets) == MasterArraysAsWritten(pool.master.bridges).value
                <==> Truthy(pool.master.bridges))
  {
    RouteAllMasterArraysOfMaster(nodes, xen);
    MasterArraysAsWrittenAgree(RouteAll(nodes, xen).value.pools[p].master.bridges);
  }

  /** A master with no bridges hands the script `bond_vlans=(`, which is not
      a bash array; the model's `BecomeMaster` writes `()` instead, the empty
      array the script's loops expect. */
  lemma MasterWithoutBridgesUnclosed()
    ensures MasterArraysAsWritten(List([])) == Ok(("(", "("))
    ensures ParseBashArray("(") == None
    ensures MasterArraysAsWritten(Null) == Ok(("(", "(")) && !Bracketed("(")
    ensures MasterRows(List([])) == Ok([])
    ensures ParseBashArray(BashArray(MasterVlans([]))) == Some([])
  {
    assert MasterVlans([]) == [];
    BashArrayRoundTrip([]);
  }

  // ---------------------------------------------------------------------
  // Pre-flight package checks (cloudstack/big_patch.py:2377-2391)

  const CsCommon: string := "cloudstack-common_4.5.0-snapshot_all.deb"
  const CsMgmt: string := "cloudstack-management_4.5.0-snapshot_all.deb"
  const CsAgent: string := "cloudstack-agent_4.5.0-snapshot_all.deb"
  const CsCommonRpm: string := "cloudstack-common-4.5.0-SNAPSHOT.el6.x86_64.rpm"
  const CsMgmtRpm: string := "cloudstack-management-4.5.0-SNAPSHOT.el6.x86_64.rpm"
  const CsAwsapiRpm: string := "cloudstack-awsapi-4.5.0-SNAPSHOT.el6.x86_64.rpm"
  const CsAgentRpm: string := "cloudstack-agent-4.5.0-SNAPSHOT.el6.x86_64.rpm"

  datatype Package = CommonPackage | ManagementPackage | AgentPackage | AwsapiPackage

  /** `os.path.isfile("/tmp/" + name)`, with the set of existing files as a parameter. */
  predicate Staged(files: set<string>, name: string) {
    "/tmp/" + name in files
  }

  /** The first package the checks find missing, in the source's order. */
  function MissingPackage(computeOs: Value, mgmtOs: Value, st: RunState, files: set<string>): (r: Option<Package>)
    ensures r == None <==>
              && ((st.managementNode.Some? || computeOs != Str("xenserver")) ==>
                    Staged(files, CsCommonRpm) || Staged(files, CsCommon))
              && (st.managementNode.Some? ==> Staged(files, CsMgmtRpm) || Staged(files, CsMgmt))
              && (computeOs == Str("ubuntu") && |st.nodeQ| > 0 ==> Staged(files, CsAgent))
              && (computeOs == Str("centos") && |st.nodeQ| > 0 ==> Staged(files, CsAgentRpm))
              && (mgmtOs == Str("centos") && st.managementNode.Some? ==> Staged(files, CsAwsapiRpm))
    ensures r == Some(AwsapiPackage) ==> mgmtOs == Str("centos") && st.managementNode.Some?
    ensures r == Some(AgentPackage) ==> |st.nodeQ| > 0
    ensures r == Some(ManagementPackage) ==> st.managementNode.Some?
  {
    var mgmt := st.managementNode.Some?;
    if (mgmt || computeOs != Str("xenserver")) && !Staged(files, CsCommonRpm) && !Staged(files, CsCommon) then
      Some(CommonPackage)
    else if mgmt && !Staged(files, CsMgmtRpm) && !Staged(files, CsMgmt) then Some(ManagementPackage)
    else if computeOs == Str("ubuntu") && |st.nodeQ| > 0 && !Staged(files, CsAgent) then Some(AgentPackage)
    else if computeOs == Str("centos") && |st.nodeQ| > 0 && !Staged(files, CsAgentRpm) then Some(AgentPackage)
    else if mgmtOs == Str("centos") && mgmt && !Staged(files, CsAwsapiRpm) then Some(AwsapiPackage)
    else None
  }

  // ---------------------------------------------------------------------
  // The deployment phases (cloudstack/big_patch.py:2393-2477)

  /** One phase of the deployment; each works through one queue. */
  datatype Phase =
    | SetupManagement   // worker_setup_management on MANAGEMENT_NODE, joined at the end
    | SetupMasters      // step 1 over node_q
    | JoinCluster       // step 2 over xen_slave_node_q
    | AssignIp          // step 3 over xen_master_node_q
    | ChangeMgmtIntf    // step 4 over node_mgmtintf_q
    | RebootMasters     // step 5 over xen_master_node_reboot_q
    | RebootSlaves      // step 6 over xen_slave_node_reboot_q
    | CheckBonds        // step 7 over xen_check_bond_q
    | RebootManagement  // worker_reboot_management on MANAGEMENT_NODE

  /** The nodes a phase works on. */
  function PhaseNodes(st: RunState, ph: Phase): seq<Node> {
    match ph
    case SetupManagement => if st.managementNode.Some? then [st.managementNode.value] else []
    case SetupMasters => st.nodeQ
    case JoinCluster => st.xenSlaveNodeQ
    case AssignIp => st.xenMasterNodeQ
    case ChangeMgmtIntf => st.nodeMgmtIntfQ
    case RebootMasters => st.xenMasterNodeRebootQ
    case RebootSlaves => st.xenSlaveNodeRebootQ
    case CheckBonds => st.xenCheckBondQ
    case RebootManagement => if st.managementNode.Some? then [st.managementNode.value] else []
  }

  const XenSteps: seq<Phase> := [JoinCluster, AssignIp, ChangeMgmtIntf, RebootMasters, RebootSlaves, CheckBonds]

  /** The phases started, in order: none when a package is missing; only the
      setup phases for an Ubuntu or CentOS compute OS; the six XenServer
      steps otherwise; the management node is rebooted last. */
  function Plan(computeOs: Value, mgmtOs: Value, st: RunState, files: set<string>): (r: seq<Phase>)
    ensures r == [] <==> MissingPackage(computeOs, mgmtOs, st, files).Some?
    ensures r != [] ==> r[|r| - 1] == (if st.managementNode.Some? then RebootManagement else
                                       if computeOs == Str("ubuntu") || computeOs == Str("centos") then SetupMasters
                                       else CheckBonds)
    ensures SetupManagement in r <==> r != [] && st.managementNode.Some?
    ensures RebootManagement in r <==> r != [] && st.managementNode.Some?
    ensures JoinCluster in r <==>
              r != [] && computeOs != Str("ubuntu") && computeOs != Str("centos")
  {
    if MissingPackage(computeOs, mgmtOs, st, files).Some? then []
    else
      var mgmt := st.managementNode.Some?;
      var setup := (if mgmt then [SetupManagement] else []) + [SetupMasters];
      var steps := if computeOs == Str("ubuntu") || computeOs == Str("centos") then [] else XenSteps;
      setup + steps + (if mgmt then [RebootManagement] else [])
  }

  /** The phases and the closed tables `deploy_to_all` ends with. */
  datatype Outcome = Outcome(tables: RunState, phases: seq<Phase>)

  /** `deploy_to_all(config)` with the existing files as a parameter. */
  function DeployPlan(config: map<string, Value>, files: set<string>): (r: Result<Outcome>)
    ensures "compute_os" !in config ==> r == Err(KeyError("compute_os"))
    ensures "compute_os" in config && "management_os" !in config ==> r == Err(KeyError("management_os"))
    ensures r.Ok? ==> "nodes" in config
  {
    var computeOs :- Subscript(Dict(config), "compute_os");
    var mgmtOs :- Subscript(Dict(config), "management_os");
    var nodes :- Subscript(Dict(config), "nodes");
    var items :- Iterate(nodes);
    var st :- ApplyAll(items, config, computeOs == Str("xenserver"));
    var closed := Close(st);
    Ok(Outcome(closed, Plan(computeOs, mgmtOs, closed, files)))
  }

  /** How `DeployPlan` is put together, for the lemmas below. */
  lemma DeployPlanParts(config: map<string, Value>, files: set<string>)
    requires DeployPlan(config, files).Ok?
    ensures "compute_os" in config && "management_os" in config && "nodes" in config
    ensures Iterate(config["nodes"]).Ok?
    ensures ApplyAll(Iterate(config["nodes"]).value, config, config["compute_os"] == Str("xenserver")).Ok?
    ensures var st := ApplyAll(Iterate(config["nodes"]).value, config, config["compute_os"] == Str("xenserver")).value;
            && DeployPlan(config, files).value.tables == Close(st)
            && DeployPlan(config, files).value.phases ==
               Plan(config["compute_os"], config["management_os"], Close(st), files)
  {
  }

  /** The XenServer plan once the checks pass. */
  lemma XenPlan(mgmtOs: Value, st: RunState, files: set<string>)
    requires Plan(Str("xenserver"), mgmtOs, st, files) != []
    ensures var ph := Plan(Str("xenserver"), mgmtOs, st, files);
            ph == (if st.managementNode.Some? then [SetupManagement] else []) + [SetupMasters] + XenSteps
                  + (if st.managementNode.Some? then [RebootManagement] else [])
  {
  }

  /** On XenServer, once the checks pass, every XenServer compute node is
      handled exactly once by the master steps or the slave steps, and every
      non-management node is set up and has its bond checked. */
  lemma XenDeployCoversNodes(config: map<string, Value>, files: set<string>)
    requires DeployPlan(config, files).Ok?
    requires config["compute_os"] == Str("xenserver")
    requires DeployPlan(config, files).value.phases != []
    ensures "nodes" in config && Iterate(config["nodes"]).Ok?
    ensures BuildEach(Iterate(config["nodes"]).value, config, true).Ok?
    ensures var o := DeployPlan(config, files).value;
            var nodes := BuildEach(Iterate(config["nodes"]).value, config, true).value;
            && JoinCluster in o.phases && AssignIp in o.phases && CheckBonds in o.phases
            && multiset(PhaseNodes(o.tables, AssignIp)) + multiset(PhaseNodes(o.tables, JoinCluster))
               == multiset(XenComputes(nodes, true))
            && PhaseNodes(o.tables, SetupMasters) == NonManagement(nodes)
            && PhaseNodes(o.tables, CheckBonds) == NonManagement(nodes)
  {
    DeployPlanParts(config, files);
    var o := DeployPlan(config, files).value;
    var items := Iterate(config["nodes"]).value;
    var st := ApplyAll(items, config, true).value;
    ApplyAllRoutesBuiltNodes(items, config, true);
    var nodes := BuildEach(items, config, true).value;
    QueuesCovered(nodes, st);
    XenPlan(config["management_os"], Close(st), files);
  }

  /** The queue contents after routing, and closing leaves the queues alone. */
  lemma QueuesCovered(nodes: seq<Node>, st: RunState)
    requires RouteAll(nodes, true) == Ok(st)
    ensures multiset(PhaseNodes(Close(st), AssignIp)) + multiset(PhaseNodes(Close(st), JoinCluster))
            == multiset(XenComputes(nodes, true))
    ensures PhaseNodes(Close(st), SetupMasters) == NonManagement(nodes)
    ensures PhaseNodes(Close(st), CheckBonds) == NonManagement(nodes)
  {
    RouteAllQueues(nodes, true);
    RouteAllMasterSlaveQueues(nodes, true);
    LeadersFollowersPartition(nodes, true);
    var c := Close(st);
    assert PhaseNodes(c, AssignIp) == Leaders(nodes, true);
    assert PhaseNodes(c, JoinCluster) == Followers(nodes, true);
    assert PhaseNodes(c, SetupMasters) == NonManagement(nodes);
    assert PhaseNodes(c, CheckBonds) == NonManagement(nodes);
  }
}

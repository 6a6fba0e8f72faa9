/** `deploy_to_all` as the source runs it: module-level tables and queues
    that the routing loop updates in place, `+=` loops over each node's
    bridges, and the closing loop over the master pools. Each method is
    proved against the functions of `CloudStackDeploy`. */
module CloudStackDeployment {
  import opened Py
  import opened CloudStackNodes
  import opened CloudStackArrays
  import opened CloudStackDeploy

  lemma {:induction false} ReadMasterRowsErrPersists(items: seq<Value>, i: nat)
    requires i <= |items| && ReadMasterRows(items[..i]).Err?
    ensures ReadMasterRows(items) == Err(ReadMasterRows(items[..i]).error)
    decreases |items| - i
  {
    if i < |items| {
      var front := items[..|items| - 1];
      assert front[..i] == items[..i];
      ReadMasterRowsErrPersists(front, i);
    } else {
      assert items[..i] == items;
    }
  }

  lemma {:induction false} ReadSlaveRowsErrPersists(items: seq<Value>, i: nat)
    requires i <= |items| && ReadSlaveRows(items[..i]).Err?
    ensures ReadSlaveRows(items) == Err(ReadSlaveRows(items[..i]).error)
    decreases |items| - i
  {
    if i < |items| {
      var front := items[..|items| - 1];
      assert front[..i] == items[..i];
      ReadSlaveRowsErrPersists(front, i);
    } else {
      assert items[..i] == items;
    }
  }

  lemma {:induction false} ApplyAllErrPersists(items: seq<Value>, config: map<string, Value>, xen: bool, i: nat)
    requires i <= |items| && ApplyAll(items[..i], config, xen).Err?
    ensures ApplyAll(items, config, xen) == Err(ApplyAll(items[..i], config, xen).error)
    decreases |items| - i
  {
    if i < |items| {
      var front := items[..|items| - 1];
      assert front[..i] == items[..i];
      ApplyAllErrPersists(front, config, xen, i);
    } else {
      assert items[..i] == items;
    }
  }

  /** One more node entry: built, then routed from the state so far. */
  lemma ApplyAllSnoc(items: seq<Value>, config: map<string, Value>, xen: bool, i: nat, st: RunState)
    requires i < |items| && ApplyAll(items[..i], config, xen) == Ok(st)
    ensures ApplyAll(items[..i + 1], config, xen) == Step(st, items[i], config, xen)
  {
    assert items[..i + 1][..i] == items[..i];
  }

  lemma MasterColumnsAppend(rows: seq<MasterRow>, row: MasterRow)
    ensures "(" + Elements(MasterVlans(rows + [row])) == "(" + Elements(MasterVlans(rows)) + Element(row.vlan)
    ensures "(" + Elements(MasterInets(rows + [row])) == "(" + Elements(MasterInets(rows)) + Element(row.inet)
  {
    assert Elements(MasterVlans(rows + [row])) == Elements(MasterVlans(rows)) + Element(row.vlan) by {
      assert MasterVlans(rows + [row]) == MasterVlans(rows) + [row.vlan];
      ElementsAppend(MasterVlans(rows), row.vlan);
    }
    assert Elements(MasterInets(rows + [row])) == Elements(MasterInets(rows)) + Element(row.inet) by {
      assert MasterInets(rows + [row]) == MasterInets(rows) + [row.inet];
      ElementsAppend(MasterInets(rows), row.inet);
    }
  }

  lemma SlaveColumnsAppend(rows: seq<SlaveRow>, row: SlaveRow)
    ensures Elements(SlaveAddresses(rows + [row])) == Elements(SlaveAddresses(rows)) + Element(row.address)
    ensures Elements(SlaveNetmasks(rows + [row])) == Elements(SlaveNetmasks(rows)) + Element(row.netmask)
    ensures Elements(SlaveGateways(rows + [row])) == Elements(SlaveGateways(rows)) + Element(row.gateway)
  {
    assert Elements(SlaveAddresses(rows + [row])) == Elements(SlaveAddresses(rows)) + Element(row.address) by {
      assert SlaveAddresses(rows + [row]) == SlaveAddresses(rows) + [row.address];
      ElementsAppend(SlaveAddresses(rows), row.address);
    }
    assert Elements(SlaveNetmasks(rows + [row])) == Elements(SlaveNetmasks(rows)) + Element(row.netmask) by {
      assert SlaveNetmasks(rows + [row]) == SlaveNetmasks(rows) + [row.netmask];
      ElementsAppend(SlaveNetmasks(rows), row.netmask);
    }
    assert Elements(SlaveGateways(rows + [row])) == Elements(SlaveGateways(rows)) + Element(row.gateway) by {
      assert SlaveGateways(rows + [row]) == SlaveGateways(rows) + [row.gateway];
      ElementsAppend(SlaveGateways(rows), row.gateway);
    }
  }

  lemma MasterRowsStep(items: seq<Value>, i: nat, rows: seq<MasterRow>)
    requires i < |items| && ReadMasterRows(items[..i]) == Ok(rows) && ReadMasterRow(items[i]).Ok?
    ensures ReadMasterRows(items[..i + 1]) == Ok(rows + [ReadMasterRow(items[i]).value])
  {
    assert items[..i + 1][..i] == items[..i];
  }

  lemma SlaveRowsStep(items: seq<Value>, i: nat, rows: seq<SlaveRow>)
    requires i < |items| && ReadSlaveRows(items[..i]) == Ok(rows) && ReadSlaveRow(items[i]).Ok?
    ensures ReadSlaveRows(items[..i + 1]) == Ok(rows + [ReadSlaveRow(items[i]).value])
  {
    assert items[..i + 1][..i] == items[..i];
  }

  /** The `+=` loop over a new master's bridges that grows `bond_vlans` and `bond_inets`. */
  method MasterColumns(items: seq<Value>) returns (r: Result<(string, string)>)
    ensures r.Ok? <==> ReadMasterRows(items).Ok?
    ensures r.Ok? ==> r.value == ("(" + Elements(MasterVlans(ReadMasterRows(items).value)),
                                  "(" + Elements(MasterInets(ReadMasterRows(items).value)))
    ensures r.Err? ==> r.error == ReadMasterRows(items).error
  {
    var vlans, inets := "(", "(";
    ghost var rows: seq<MasterRow> := [];
    var i := 0;
    while i < |items|
      invariant 0 <= i <= |items|
      invariant ReadMasterRows(items[..i]) == Ok(rows)
      invariant vlans == "(" + Elements(MasterVlans(rows)) && inets == "(" + Elements(MasterInets(rows))
    {
      var row := ReadMasterRow(items[i]);
      if row.Err? {
        assert items[..i + 1][..i] == items[..i];
        ReadMasterRowsErrPersists(items, i + 1);
        return Err(row.error);
      }
      MasterRowsStep(items, i, rows);
      MasterColumnsAppend(rows, row.value);
      vlans, inets := vlans + Element(row.value.vlan), inets + Element(row.value.inet);
      rows := rows + [row.value];
      i := i + 1;
    }
    assert items[..i] == items;
    return Ok((vlans, inets));
  }

  /** A new master's `bond_vlans` and `bond_inets`, closed whether or not it
      has bridges (the corrected behaviour; see
      `CloudStackDeploy.MasterArraysAsWritten`). */
  method MasterArrays(bridges: Value) returns (r: Result<(string, string)>)
    ensures r.Ok? <==> MasterRows(bridges).Ok?
    ensures r.Ok? ==> r.value == (BashArray(MasterVlans(MasterRows(bridges).value)),
                                  BashArray(MasterInets(MasterRows(bridges).value)))
    ensures r.Err? ==> r.error == MasterRows(bridges).error
  {
    var items: seq<Value> := [];
    if Truthy(bridges) {
      var it := Iterate(bridges);
      if it.Err? {
        return Err(it.error);
      }
      items := it.value;
    }
    assert MasterRows(bridges) == ReadMasterRows(items);
    var open := MasterColumns(items);
    if open.Err? {
      return Err(open.error);
    }
    return Ok((open.value.0 + ")", open.value.1 + ")"));
  }

  /** The `+=` loop over a slave's bridges: what it appends to its pool's
      `bond_ips`, `bond_masks` and `bond_gateways`. */
  method SlaveColumns(items: seq<Value>) returns (r: Result<(string, string, string)>)
    ensures r.Ok? <==> ReadSlaveRows(items).Ok?
    ensures r.Ok? ==> r.value == (Elements(SlaveAddresses(ReadSlaveRows(items).value)),
                                  Elements(SlaveNetmasks(ReadSlaveRows(items).value)),
                                  Elements(SlaveGateways(ReadSlaveRows(items).value)))
    ensures r.Err? ==> r.error == ReadSlaveRows(items).error
  {
    var ips, masks, gateways := "", "", "";
    ghost var rows: seq<SlaveRow> := [];
    var i := 0;
    while i < |items|
      invariant 0 <= i <= |items|
      invariant ReadSlaveRows(items[..i]) == Ok(rows)
      invariant ips == Elements(SlaveAddresses(rows)) && masks == Elements(SlaveNetmasks(rows))
      invariant gateways == Elements(SlaveGateways(rows))
    {
      var row := ReadSlaveRow(items[i]);
      if row.Err? {
        assert items[..i + 1][..i] == items[..i];
        ReadSlaveRowsErrPersists(items, i + 1);
        return Err(row.error);
      }
      SlaveRowsStep(items, i, rows);
      SlaveColumnsAppend(rows, row.value);
      ips, masks := ips + Element(row.value.address), masks + Element(row.value.netmask);
      gateways := gateways + Element(row.value.gateway);
      rows := rows + [row.value];
      i := i + 1;
    }
    assert items[..i] == items;
    return Ok((ips, masks, gateways));
  }

  method SlaveArrays(bridges: Value) returns (r: Result<(string, string, string)>)
    ensures r.Ok? <==> SlaveRows(bridges).Ok?
    ensures r.Ok? ==> r.value == (Elements(SlaveAddresses(SlaveRows(bridges).value)),
                                  Elements(SlaveNetmasks(SlaveRows(bridges).value)),
                                  Elements(SlaveGateways(SlaveRows(bridges).value)))
    ensures r.Err? ==> r.error == SlaveRows(bridges).error
  {
    var items: seq<Value> := [];
    if Truthy(bridges) {
      var it := Iterate(bridges);
      if it.Err? {
        return Err(it.error);
      }
      items := it.value;
    }
    assert SlaveRows(bridges) == ReadSlaveRows(items);
    r := SlaveColumns(items);
  }

  /** The loop over `MASTER_NODES.keys()`: every pool's four open arrays get
      their closing `)`, one pool at a time. */
  method CloseEach(pools: map<Value, Pool>) returns (closed: map<Value, Pool>)
    ensures closed == map p | p in pools :: ClosePool(pools[p])
  {
    var pending := pools.Keys;
    closed := pools;
    while pending != {}
      invariant pending <= pools.Keys && closed.Keys == pools.Keys
      invariant forall p :: p in pools && p !in pending ==> closed[p] == ClosePool(pools[p])
      invariant forall p :: p in pending ==> closed[p] == pools[p]
      decreases |pending|
    {
      var p :| p in pending;
      var pool := closed[p];
      closed := closed[p := pool.(slaveNameLabels := pool.slaveNameLabels + ")", bondIps := pool.bondIps + ")",
                                  bondMasks := pool.bondMasks + ")", bondGateways := pool.bondGateways + ")")];
      pending := pending - {p};
    }
  }

  /** The module-level state of one run of the deployment script: the seven
      queues, `MANAGEMENT_NODE`, and the pools (`MASTER_NODES`, `POOL_SIZES`
      and the six per-pool string dicts, which share their keys). */
  class Deployment {
    var nodeQ: seq<Node>
    var nodeMgmtIntfQ: seq<Node>
    var xenCheckBondQ: seq<Node>
    var xenMasterNodeQ: seq<Node>
    var xenMasterNodeRebootQ: seq<Node>
    var xenSlaveNodeQ: seq<Node>
    var xenSlaveNodeRebootQ: seq<Node>
    var managementNode: Option<Node>
    var pools: map<Value, Pool>

    function State(): RunState
      reads this
    {
      RunState(nodeQ, nodeMgmtIntfQ, xenCheckBondQ, xenMasterNodeQ, xenMasterNodeRebootQ,
               xenSlaveNodeQ, xenSlaveNodeRebootQ, managementNode, pools)
    }

    /** Empty queues, `MANAGEMENT_NODE = None`, no pools. */
    constructor ()
      ensures State() == Init
    {
      nodeQ, nodeMgmtIntfQ, xenCheckBondQ := [], [], [];
      xenMasterNodeQ, xenMasterNodeRebootQ, xenSlaveNodeQ, xenSlaveNodeRebootQ := [], [], [], [];
      managementNode := None;
      pools := map[];
    }

    /** A new pool with `n` as its master. */
    method AddMaster(n: Node, vlans: string, inets: string, ghost rows: seq<MasterRow>)
      requires vlans == BashArray(MasterVlans(rows)) && inets == BashArray(MasterInets(rows))
      modifies this
      ensures State() == BecomeMaster(old(State()), n, rows)
    {
      pools := pools[n.xenserverPool := Pool(n, 1, "(", "(", "(", "(", vlans, inets)];
      xenMasterNodeQ := xenMasterNodeQ + [n];
      xenMasterNodeRebootQ := xenMasterNodeRebootQ + [n];
    }

    /** `n` joins its existing pool as a slave. */
    method AddSlave(n: Node, ips: string, masks: string, gateways: string, ghost rows: seq<SlaveRow>)
      requires n.xenserverPool in pools
      requires ips == Elements(SlaveAddresses(rows)) && masks == Elements(SlaveNetmasks(rows))
      requires gateways == Elements(SlaveGateways(rows))
      modifies this
      ensures State() == BecomeSlave(old(State()), n, rows)
    {
      var p := n.xenserverPool;
      var pool := pools[p];
      pools := pools[p := pool.(size := pool.size + 1,
                                slaveNameLabels := pool.slaveNameLabels + Element(Text(n.hostNameLabel)),
                                bondIps := pool.bondIps + ips, bondMasks := pool.bondMasks + masks,
                                bondGateways := pool.bondGateways + gateways)];
      xenSlaveNodeQ := xenSlaveNodeQ + [n];
      xenSlaveNodeRebootQ := xenSlaveNodeRebootQ + [n];
    }

    /** The routing of one built node (cloudstack/big_patch.py:2302-2352). */
    method RouteNode(n: Node, xen: bool) returns (err: Option<PyError>)
      modifies this
      ensures err.None? <==> Route(old(State()), n, xen).Ok?
      ensures err.None? ==> State() == Route(old(State()), n, xen).value
      ensures err.Some? ==> Route(old(State()), n, xen) == Err(err.value)
    {
      if IsManagement(n) {
        managementNode := Some(n);
      } else {
        nodeQ := nodeQ + [n];
        nodeMgmtIntfQ := nodeMgmtIntfQ + [n];
        xenCheckBondQ := xenCheckBondQ + [n];
      }
      assert State() == Enqueue(old(State()), n);
      var p := n.xenserverPool;
      if xen && IsCompute(n) && p !in pools {
        if !Hashable(p) {
          return Some(TypeError);
        }
        var arrays := MasterArrays(n.bridges);
        if arrays.Err? {
          return Some(arrays.error);
        }
        AddMaster(n, arrays.value.0, arrays.value.1, MasterRows(n.bridges).value);
      } else if xen && IsCompute(n) {
        var arrays := SlaveArrays(n.bridges);
        if arrays.Err? {
          return Some(arrays.error);
        }
        AddSlave(n, arrays.value.0, arrays.value.1, arrays.value.2, SlaveRows(n.bridges).value);
      }
      return None;
    }

    /** `for pool in MASTER_NODES.keys()`: close four arrays of every pool. */
    method ClosePools()
      modifies this
      ensures State() == Close(old(State()))
    {
      pools := CloseEach(pools);
    }

    /** One pass of the loop in `deploy_to_all`. */
    method RouteEntry(item: Value, config: map<string, Value>, xen: bool) returns (err: Option<PyError>)
      modifies this
      ensures err.None? <==> Step(old(State()), item, config, xen).Ok?
      ensures err.None? ==> State() == Step(old(State()), item, config, xen).value
      ensures err.Some? ==> Step(old(State()), item, config, xen) == Err(err.value)
    {
      var node := BuildEntry(item, config, xen);
      if node.Err? {
        return Some(node.error);
      }
      err := RouteNode(node.value, xen);
    }

    /** The loop of `deploy_to_all` over the node entries: build each one
        and route it, stopping at the first that raises. */
    method RouteNodes(items: seq<Value>, config: map<string, Value>, xen: bool) returns (err: Option<PyError>)
      requires State() == Init
      modifies this
      ensures err.None? <==> ApplyAll(items, config, xen).Ok?
      ensures err.None? ==> State() == ApplyAll(items, config, xen).value
      ensures err.Some? ==> ApplyAll(items, config, xen) == Err(err.value)
    {
      var i := 0;
      while i < |items|
        invariant 0 <= i <= |items|
        invariant ApplyAll(items[..i], config, xen) == Ok(State())
      {
        ApplyAllSnoc(items, config, xen, i, State());
        var e := RouteEntry(items[i], config, xen);
        if e.Some? {
          ApplyAllErrPersists(items, config, xen, i + 1);
          return e;
        }
        i := i + 1;
      }
      assert items[..i] == items;
      return None;
    }

    /** `deploy_to_all(config)`: read the two OS names and the node list,
        build and route every node, close the pool arrays, run the package
        checks and return the phases started. */
    method DeployToAll(config: map<string, Value>, files: set<string>) returns (r: Result<seq<Phase>>)
      requires State() == Init
      modifies this
      ensures r.Ok? <==> DeployPlan(config, files).Ok?
      ensures r.Ok? ==> r.value == DeployPlan(config, files).value.phases
      ensures r.Ok? ==> State() == DeployPlan(config, files).value.tables
      ensures r.Err? ==> r.error == DeployPlan(config, files).error
    {
      if "compute_os" !in config {
        return Err(KeyError("compute_os"));
      }
      var computeOs := config["compute_os"];
      if "management_os" !in config {
        return Err(KeyError("management_os"));
      }
      var mgmtOs := config["management_os"];
      if "nodes" !in config {
        return Err(KeyError("nodes"));
      }
      var it := Iterate(config["nodes"]);
      if it.Err? {
        return Err(it.error);
      }
      var xen := computeOs == Str("xenserver");
      var err := RouteNodes(it.value, config, xen);
      if err.Some? {
        return Err(err.value);
      }
      ClosePools();
      return Ok(Plan(computeOs, mgmtOs, State(), files));
    }
  }
}

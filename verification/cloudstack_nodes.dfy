/** CloudStack node records: `get_raw_value`, the defaulting that
    `deploy_to_all` applies to every YAML node entry, and the `Node`
    constructor (cloudstack/big_patch.py). */
module CloudStackNodes {
  import opened Py
  import opened PyStrings

  const RoleManagement: string := "management"
  const RoleCompute: string := "compute"
  /** The "undefined" string handed to Puppet for a missing password. */
  const Undef: string := ""

  /** `get_raw_value(dic, key)`: the stored value, or its first element when
      the value is a list (YAML has no tuples). */
  function RawValue(dic: Value, key: string): (r: Result<Value>)
    ensures r.Ok? <==> dic.Dict? && key in dic.fields &&
                       !(dic.fields[key].List? && |dic.fields[key].items| == 0)
    ensures r.Ok? && dic.fields[key].List? ==> r.value == dic.fields[key].items[0]
    ensures r.Ok? && !dic.fields[key].List? ==> r.value == dic.fields[key]
    ensures dic.Dict? && key in dic.fields && dic.fields[key].List? && |dic.fields[key].items| == 0
            ==> r == Err(IndexError)
  {
    var v :- Subscript(dic, key);
    if v.List? then
      if |v.items| == 0 then Err(IndexError) else Ok(v.items[0])
    else Ok(v)
  }

  /** A value and the same value wrapped in a list read the same. */
  lemma RawValueUnwrapsList(m: map<string, Value>, key: string, v: Value, rest: seq<Value>)
    requires !v.List?
    ensures RawValue(Dict(m[key := List([v] + rest)]), key) == RawValue(Dict(m[key := v]), key) == Ok(v)
  {
  }

  /** The keys `deploy_to_all` fills from a `default_<key>` entry of the
      configuration, in the order it tests them. */
  function DefaultOrder(xen: bool): seq<string> {
    ["pxe_interface", "node_username", "node_password", "role"] +
    (if xen then ["xenserver_pool"] else []) +
    ["bond_interface", "bridges"]
  }

  /** The keys `deploy_to_all` always sets from the global configuration. */
  const GlobalKeys: set<string> := {"pxe_gw", "mysql_root_pwd", "cloud_db_pwd"}

  function DefaultKey(key: string): string {
    "default_" + key
  }

  /** Every key of `keys` is present or has a default. */
  predicate Fillable(nc: map<string, Value>, config: map<string, Value>, keys: seq<string>) {
    forall k :: k in keys ==> k in nc || DefaultKey(k) in config
  }

  /** What defaulting leaves under `k`: the node's own value wins. */
  function Defaulted(nc: map<string, Value>, config: map<string, Value>, k: string): Value
    requires k in nc || DefaultKey(k) in config
  {
    if k in nc then nc[k] else config[DefaultKey(k)]
  }

  /** `if key not in nc: nc[key] = config['default_' + key]`. */
  function FillDefault(nc: map<string, Value>, config: map<string, Value>, key: string): Result<map<string, Value>> {
    if key in nc then Ok(nc)
    else if DefaultKey(key) in config then Ok(nc[key := config[DefaultKey(key)]])
    else Err(KeyError(DefaultKey(key)))
  }

  /** The `if ... not in node_config` tests for `keys`, one after the other. */
  function FillDefaults(nc: map<string, Value>, config: map<string, Value>, keys: seq<string>): (r: Result<map<string, Value>>)
    ensures r.Ok? <==> Fillable(nc, config, keys)
    ensures r.Ok? ==> r.value.Keys == nc.Keys + set k | k in keys
    ensures r.Ok? ==> forall k :: k in keys ==> r.value[k] == Defaulted(nc, config, k)
    ensures r.Ok? ==> forall k :: k in nc ==> r.value[k] == nc[k]
    decreases |keys|
  {
    if |keys| == 0 then Ok(nc)
    else
      var m :- FillDefault(nc, config, keys[0]);
      FillDefaults(m, config, keys[1..])
  }

  /** A falsy password becomes `UNDEF`. */
  function PasswordOrUndef(v: Value): (r: Value)
    ensures Truthy(v) ==> r == v
    ensures !Truthy(v) ==> r == Str(Undef)
  {
    if Truthy(v) then v else Str(Undef)
  }

  /** `pxe_gw`, `mysql_root_pwd` and `cloud_db_pwd` overwritten from the configuration. */
  function WithGlobals(m: map<string, Value>, config: map<string, Value>): (r: Result<map<string, Value>>)
    ensures r.Ok? <==> GlobalKeys <= config.Keys
    ensures r.Ok? ==> r.value.Keys == m.Keys + GlobalKeys
    ensures r.Ok? ==> r.value["pxe_gw"] == config["pxe_gw"]
    ensures r.Ok? ==> r.value["mysql_root_pwd"] == PasswordOrUndef(config["mysql_root_pwd"])
    ensures r.Ok? ==> r.value["cloud_db_pwd"] == PasswordOrUndef(config["cloud_db_pwd"])
    ensures r.Ok? ==> forall k :: k in m && k !in GlobalKeys ==> r.value[k] == m[k]
  {
    if "pxe_gw" !in config then Err(KeyError("pxe_gw"))
    else if "mysql_root_pwd" !in config then Err(KeyError("mysql_root_pwd"))
    else if "cloud_db_pwd" !in config then Err(KeyError("cloud_db_pwd"))
    else
      Ok(m["pxe_gw" := config["pxe_gw"]]
          ["mysql_root_pwd" := PasswordOrUndef(config["mysql_root_pwd"])]
          ["cloud_db_pwd" := PasswordOrUndef(config["cloud_db_pwd"])])
  }

  /** `host_name_label` defaults to the empty string. */
  function WithLabel(m: map<string, Value>): (r: map<string, Value>)
    ensures r.Keys == m.Keys + {"host_name_label"}
    ensures r["host_name_label"] == (if "host_name_label" in m then m["host_name_label"] else Str(""))
    ensures forall k :: k in m ==> r[k] == m[k]
  {
    if "host_name_label" in m then m else m["host_name_label" := Str("")]
  }

  lemma DefaultOrderNotGlobal(xen: bool)
    ensures forall k :: k in DefaultOrder(xen) ==> k !in GlobalKeys
    ensures "host_name_label" !in DefaultOrder(xen) && "host_name_label" !in GlobalKeys
  {
  }

  /** The defaulting of one node entry (cloudstack/big_patch.py:2277-2299);
      `xen` says whether `compute_os` is `'xenserver'`. */
  function WithDefaults(nc: map<string, Value>, config: map<string, Value>, xen: bool): (r: Result<map<string, Value>>)
    ensures r.Ok? <==> Fillable(nc, config, DefaultOrder(xen)) && GlobalKeys <= config.Keys
    ensures r.Ok? ==> r.value.Keys == nc.Keys + (set k | k in DefaultOrder(xen)) + GlobalKeys + {"host_name_label"}
    ensures r.Ok? ==> forall k :: k in DefaultOrder(xen) ==> r.value[k] == Defaulted(nc, config, k)
    ensures r.Ok? ==> r.value["host_name_label"] == (if "host_name_label" in nc then nc["host_name_label"] else Str(""))
    ensures r.Ok? ==> r.value["pxe_gw"] == config["pxe_gw"]
    ensures r.Ok? ==> r.value["mysql_root_pwd"] == PasswordOrUndef(config["mysql_root_pwd"])
    ensures r.Ok? ==> r.value["cloud_db_pwd"] == PasswordOrUndef(config["cloud_db_pwd"])
    ensures r.Ok? ==> forall k :: k in nc && k !in GlobalKeys ==> r.value[k] == nc[k]
  {
    DefaultOrderNotGlobal(xen);
    var filled :- FillDefaults(nc, config, DefaultOrder(xen));
    WithGlobals(WithLabel(filled), config)
  }

  /** A defaulted entry passes defaulting again, with the same keys. */
  lemma WithDefaultsAcceptsOwnResult(nc: map<string, Value>, config: map<string, Value>, xen: bool)
    requires WithDefaults(nc, config, xen).Ok?
    ensures WithDefaults(WithDefaults(nc, config, xen).value, config, xen).Ok?
    ensures WithDefaults(WithDefaults(nc, config, xen).value, config, xen).value.Keys
            == WithDefaults(nc, config, xen).value.Keys
  {
    var once := WithDefaults(nc, config, xen).value;
    assert Fillable(once, config, DefaultOrder(xen)) by {
      forall k | k in DefaultOrder(xen)
        ensures k in once
      {
      }
    }
  }

  /** A second defaulting keeps the value of every key of a defaulted entry. */
  lemma WithDefaultsKeepsKey(nc: map<string, Value>, config: map<string, Value>, xen: bool, k: string)
    requires WithDefaults(nc, config, xen).Ok? && k in WithDefaults(nc, config, xen).value
    requires WithDefaults(WithDefaults(nc, config, xen).value, config, xen).Ok?
    ensures k in WithDefaults(WithDefaults(nc, config, xen).value, config, xen).value
    ensures WithDefaults(WithDefaults(nc, config, xen).value, config, xen).value[k]
            == WithDefaults(nc, config, xen).value[k]
  {
    var once := WithDefaults(nc, config, xen).value;
    var twice := WithDefaults(once, config, xen).value;
    if k == "pxe_gw" {
    } else if k == "mysql_root_pwd" {
    } else if k == "cloud_db_pwd" {
    } else {
      NotGlobal(k);
    }
  }

  lemma NotGlobal(k: string)
    requires k != "pxe_gw" && k != "mysql_root_pwd" && k != "cloud_db_pwd"
    ensures k !in GlobalKeys
  {
  }

  /** Defaulting a node entry a second time changes nothing. */
  lemma {:induction false} WithDefaultsIdempotent(nc: map<string, Value>, config: map<string, Value>, xen: bool)
    requires WithDefaults(nc, config, xen).Ok?
    ensures WithDefaults(WithDefaults(nc, config, xen).value, config, xen) == WithDefaults(nc, config, xen)
  {
    var once := WithDefaults(nc, config, xen).value;
    WithDefaultsAcceptsOwnResult(nc, config, xen);
    var twice := WithDefaults(once, config, xen).value;
    forall k | k in once
      ensures twice[k] == once[k]
    {
      WithDefaultsKeepsKey(nc, config, xen, k);
    }
    assert twice == once;
  }

  /** A CloudStack node (class `Node`); every field keeps the YAML value it was read from. */
  datatype Node = Node(
    hostname: Value,
    hostNameLabel: Value,
    pxeGw: Value,
    nodeUsername: Value,
    nodePassword: Value,
    role: Value,
    mysqlRootPwd: Value,
    cloudDbPwd: Value,
    bondName: Value,
    bondInterfaces: Value,
    pxeInterface: Value,
    xenserverPool: Value,     // None unless the compute OS is xenserver
    managementBond: Value,    // only read for a management node
    bridges: Value)           // None for a management node

  predicate IsManagement(n: Node) {
    n.role == Str(RoleManagement)
  }

  predicate IsCompute(n: Node) {
    n.role == Str(RoleCompute)
  }

  /** Every read of `Node.__init__` succeeds: the eight `get_raw_value`
      keys, the bond's name and interfaces, the PXE interface, the pool on
      xenserver, and the management bond or the bridges, by role. */
  predicate NodeReadable(nc: map<string, Value>, xen: bool) {
    var d := Dict(nc);
    && RawValue(d, "hostname").Ok? && RawValue(d, "host_name_label").Ok?
    && RawValue(d, "pxe_gw").Ok? && RawValue(d, "node_username").Ok?
    && RawValue(d, "node_password").Ok? && RawValue(d, "role").Ok?
    && RawValue(d, "mysql_root_pwd").Ok? && RawValue(d, "cloud_db_pwd").Ok?
    && "bond_interface" in nc && RawValue(nc["bond_interface"], "name").Ok?
    && Subscript(nc["bond_interface"], "interfaces").Ok?
    && "pxe_interface" in nc
    && (xen ==> RawValue(d, "xenserver_pool").Ok?)
    && (RawValue(d, "role").value == Str(RoleManagement) ==> RawValue(d, "management_bond").Ok?)
    && (RawValue(d, "role").value != Str(RoleManagement) ==> "bridges" in nc)
  }

  /** `Node.__init__` (cloudstack/big_patch.py:1499-1522). */
  function MakeNode(nc: map<string, Value>, xen: bool): (r: Result<Node>)
    ensures r.Ok? <==> NodeReadable(nc, xen)
    ensures r.Ok? ==> RawValue(Dict(nc), "role") == Ok(r.value.role)
    ensures r.Ok? ==> RawValue(Dict(nc), "hostname") == Ok(r.value.hostname)
    ensures r.Ok? ==> RawValue(Dict(nc), "host_name_label") == Ok(r.value.hostNameLabel)
    ensures r.Ok? ==> RawValue(Dict(nc), "pxe_gw") == Ok(r.value.pxeGw)
    ensures r.Ok? ==> RawValue(Dict(nc), "node_username") == Ok(r.value.nodeUsername)
    ensures r.Ok? ==> RawValue(Dict(nc), "node_password") == Ok(r.value.nodePassword)
    ensures r.Ok? ==> RawValue(Dict(nc), "mysql_root_pwd") == Ok(r.value.mysqlRootPwd)
    ensures r.Ok? ==> RawValue(Dict(nc), "cloud_db_pwd") == Ok(r.value.cloudDbPwd)
    ensures r.Ok? ==> "bond_interface" in nc && RawValue(nc["bond_interface"], "name") == Ok(r.value.bondName)
    ensures r.Ok? ==> Subscript(nc["bond_interface"], "interfaces") == Ok(r.value.bondInterfaces)
    ensures r.Ok? ==> "pxe_interface" in nc && r.value.pxeInterface == nc["pxe_interface"]
    ensures r.Ok? && xen ==> RawValue(Dict(nc), "xenserver_pool") == Ok(r.value.xenserverPool)
    ensures r.Ok? && !xen ==> r.value.xenserverPool == Null
    ensures r.Ok? && IsManagement(r.value) ==>
              r.value.bridges == Null && RawValue(Dict(nc), "management_bond") == Ok(r.value.managementBond)
    ensures r.Ok? && !IsManagement(r.value) ==>
              "bridges" in nc && r.value.bridges == nc["bridges"] && r.value.managementBond == Null
    ensures "hostname" !in nc ==> r == Err(KeyError("hostname"))
  {
    var d := Dict(nc);
    var hostname :- RawValue(d, "hostname");
    var nameLabel :- RawValue(d, "host_name_label");
    var pxeGw :- RawValue(d, "pxe_gw");
    var user :- RawValue(d, "node_username");
    var password :- RawValue(d, "node_password");
    var role :- RawValue(d, "role");
    var mysql :- RawValue(d, "mysql_root_pwd");
    var cloudDb :- RawValue(d, "cloud_db_pwd");
    var bond :- Subscript(d, "bond_interface");
    var bondName :- RawValue(bond, "name");
    var bondInterfaces :- Subscript(bond, "interfaces");
    var pxe :- Subscript(d, "pxe_interface");
    var pool :- if xen then RawValue(d, "xenserver_pool") else Ok(Null);
    if role == Str(RoleManagement) then
      var mgmtBond :- RawValue(d, "management_bond");
      Ok(Node(hostname, nameLabel, pxeGw, user, password, role, mysql, cloudDb,
              bondName, bondInterfaces, pxe, pool, mgmtBond, Null))
    else
      var bridges :- Subscript(d, "bridges");
      Ok(Node(hostname, nameLabel, pxeGw, user, password, role, mysql, cloudDb,
              bondName, bondInterfaces, pxe, pool, Null, bridges))
  }

  /** One node entry through defaulting and `Node(node_config)`. */
  function BuildNode(nc: map<string, Value>, config: map<string, Value>, xen: bool): Result<Node> {
    var filled :- WithDefaults(nc, config, xen);
    MakeNode(filled, xen)
  }
}

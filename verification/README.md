# Deployment-support core, modelled in Dafny

This project models the deterministic part of three deployment scripts for
Big Switch fabrics. All three are written in Python 2.

- **CloudStack** (`cloudstack/big_patch.py`), modules `CloudStackNodes`,
  `CloudStackArrays`, `CloudStackInterfaces`, `CloudStackDeploy` and
  `CloudStackDeployment`:
  - `get_raw_value`, the defaulting of every YAML node entry and `Node.__init__`.
  - The text of a node's Debian interfaces file (`generate_interface_config`).
  - The bash array literals handed to the remote scripts.
  - The routing loop of `deploy_to_all`. It fills the seven work queues,
    sets `MANAGEMENT_NODE`, and builds the XenServer pool tables: the first
    compute node of a pool is its master and the later ones are slaves.
  - The closing loop over the pools, the package pre-flight checks, and
    the order in which the deployment phases start.
- **OpenStack** (`openstack/big_patch.py`), modules `OpenStackEnv` and
  `OpenStackTemplate`:
  - The validating setters of `Environment`.
  - Bond-interface and bridge-mapping parsing, in both the configuration-file
    and the standalone environment.
  - The `bond_int0`/`bond_int1` padding of the puppet settings.
  - The filter that drops benign puppet error lines.
  - The `PuppetTemplate` object: its default settings, its replacement
    files and the manifest `get_string` assembles.
- **BCF3** (`bcf3/lib/node.py`), module `Bcf3Node`: the `Node` record.
  - What `__init__` derives: lower-cased role and os, major OS version,
    rpm/deb package choice, the compatibility check, the IVS version token.
  - The readiness predicate, the script-path setters, and the builders of
    command-line fragments.

Shared modules:

- `Py` holds the Python values a YAML document can produce (`Value`), their
  truthiness and `%s` text, Python's exceptions (`PyError`), and
  `Option`/`Result`.
- `PyStrings` holds the `str` methods the scripts use: `split`, `join`,
  `strip`, `rstrip`, `lower`, `splitlines` and `replace`.

Operations that raise in Python return `Err` with the exception. Dict
subscripts raise `KeyError` and an index past the end raises `IndexError`.
Iterating a value (`Iterate`) yields a list's items, a string's
one-character strings, or nothing for an empty dict; a non-empty dict gives
`UnorderedIteration` (see "Left out"), and a number, a boolean or `None` raises
`TypeError`. The model follows
the code's own checks, branches and message texts. Three shapes recur:

- Loops are `method`s proved against a function on the values they read.
- Objects whose fields the scripts assign are classes: `Deployment`,
  `Environment`, `PuppetTemplate` and `Bcf3Node.Node`.
- Everything else is functions and lemmas.

## Model

| member | source | states |
|---|---|---|
| CloudStackNodes.RawValue | cloudstack/big_patch.py:1492-1496 | a list value yields its first element, any other value itself; a missing key or a non-dict raises, and an empty list raises IndexError |
| CloudStackNodes.RawValueUnwrapsList | cloudstack/big_patch.py:1492-1496 | a value and the same value wrapped as the head of a list read the same |
| CloudStackNodes.FillDefaults | cloudstack/big_patch.py:2277-2292 | succeeds iff every key is present or has a `default_<key>`; the result keeps every present key's value and fills each missing one from its default |
| CloudStackNodes.PasswordOrUndef | cloudstack/big_patch.py:2294-2299 | a falsy password becomes UNDEF (`''`), a truthy one is kept |
| CloudStackNodes.WithGlobals | cloudstack/big_patch.py:2293-2299 | `pxe_gw`, `mysql_root_pwd` and `cloud_db_pwd` are always overwritten from the global configuration; every other key is untouched |
| CloudStackNodes.WithLabel | cloudstack/big_patch.py:2291-2292 | `host_name_label` defaults to `''` and an existing label is kept |
| CloudStackNodes.WithDefaults | cloudstack/big_patch.py:2277-2299 | the defaulting of one entry: exactly when it succeeds, which keys it ends with, and each key's value (own value first, then the default, globals always overwritten) |
| CloudStackNodes.WithDefaultsAcceptsOwnResult | cloudstack/big_patch.py:2277-2299 | a defaulted entry passes defaulting again with the same keys |
| CloudStackNodes.WithDefaultsKeepsKey | cloudstack/big_patch.py:2277-2299 | a second defaulting keeps the value of every key |
| CloudStackNodes.WithDefaultsIdempotent | cloudstack/big_patch.py:2277-2299 | defaulting twice equals defaulting once |
| CloudStackNodes.MakeNode | cloudstack/big_patch.py:1498-1522 | succeeds iff every read succeeds (`NodeReadable`); the eight scalar fields and the bond name are `get_raw_value` of their keys, `bond_interfaces` and `pxe_interface` are plain subscripts; `xenserver_pool` only for xenserver, `management_bond` only for a management node, `bridges` only for other roles; a missing hostname raises KeyError |
| CloudStackNodes.BuildNode | cloudstack/big_patch.py:2277-2301 | one YAML entry defaulted (`WithDefaults`) and then handed to `Node(node_config)` (`MakeNode`); the first failure of the two wins |
| CloudStackArrays.ParseElementsRoundTrip | cloudstack/big_patch.py:1797-1800 | the `"v" ` elements of quote-free strings read back as exactly those strings, in order |
| CloudStackArrays.BashArrayRoundTrip | cloudstack/big_patch.py:1797-1800 | a literal `(` + `"v" `… + `)` of quote-free elements reads back as its elements |
| CloudStackArrays.BashArrayInjective | cloudstack/big_patch.py:1797-1800 | different quote-free element lists give different literals |
| CloudStackArrays.BashArray | cloudstack/big_patch.py:1797-1800 | `(` then `"v" ` for each element in order, then `)`: the literal opens with `(` and closes with `)` |
| CloudStackArrays.BondIntfsArray | cloudstack/big_patch.py:1797-1800 | the `bond_intfs` loop yields the bash array of the bond members' texts in list order, and raises as iterating the members raises |
| CloudStackArrays.FieldText | cloudstack/big_patch.py:1810-1814 | `'%s' % get_raw_value(bridge, key)`, raising exactly when the lookup raises |
| CloudStackArrays.VlanText | cloudstack/big_patch.py:1811-1813 | a falsy vlan tag is written as `''`, a truthy one as its text |
| CloudStackArrays.OptionalText | cloudstack/big_patch.py:1815-1823 | a missing address, netmask or gateway is written as `''`; a present one is its text |
| CloudStackArrays.ReadBridgeRow | cloudstack/big_patch.py:1810-1823 | one bridge entry: name, vlan (falsy as `''`) and inet by `get_raw_value`, address, netmask and gateway only when present, read in that order so the first missing key raises |
| CloudStackArrays.ReadBridgeRows | cloudstack/big_patch.py:1809-1829 | one row per bridge entry, in order; the first entry that raises decides the error |
| CloudStackArrays.BridgeRows | cloudstack/big_patch.py:1808-1829 | no rows for falsy `bridges`; otherwise the rows of its entries, raising as iterating it raises |
| CloudStackArrays.ArraysOf | cloudstack/big_patch.py:1802-1835 | the six bash arrays of a list of rows, one column each (their shape is `BridgeArraysAligned`) |
| CloudStackArrays.BridgeArraysAligned | cloudstack/big_patch.py:1802-1835 | the six arrays of one bridge list each read back as one element per bridge: the same count, and the k-th element of each comes from the k-th bridge |
| CloudStackArrays.ReadAllBridges | cloudstack/big_patch.py:1809-1829 | the loop over the bridge entries builds the six arrays of the rows, or stops at the first entry that raises |
| CloudStackArrays.BuildBridgeArrays | cloudstack/big_patch.py:1802-1835 | `if node.bridges:` then the loop; the six arrays or the error of the first bad bridge |
| CloudStackInterfaces.MemberStanzas | cloudstack/big_patch.py:1555-1559 | one `bond-master <bond>` stanza per bond member, in list order |
| CloudStackInterfaces.Render | cloudstack/big_patch.py:1525-1678 | the exact text the source appends for each kind of stanza (loopback, PXE, bond member, bond, vlan port, bridge, with and without static addresses) |
| CloudStackInterfaces.RenderAll | cloudstack/big_patch.py:1524-1678 | the stanzas' texts one after the other, as the `config +=` steps append them |
| CloudStackInterfaces.PxeStanza | cloudstack/big_patch.py:1528-1552 | interface and inet are read first and their error is the first one; the stanza is static exactly when `inet` is `static`, and carries the interface, the inet and `pxe_gw` |
| CloudStackInterfaces.ManagementStanzas | cloudstack/big_patch.py:1561-1620 | a management node's bond: a `manual` bond plus a vlan port when `management_bond.vlan` is set, static addresses when `inet` is `static` |
| CloudStackInterfaces.BridgePort | cloudstack/big_patch.py:1643-1647 | `<bond>.<vlan>` for a tagged bridge, the bond itself otherwise |
| CloudStackInterfaces.BridgeStanzas | cloudstack/big_patch.py:1630-1678 | one bridge entry: a vlan port when tagged, then a bridge stanza on a compute node, static when `inet` is `static` (its port layout is `ComputeBridgePorts`) |
| CloudStackInterfaces.Prologue | cloudstack/big_patch.py:1525-1559 | loopback, then the PXE stanza, then one bond-member stanza per interface |
| CloudStackInterfaces.Stanzas | cloudstack/big_patch.py:1524-1678 | the whole file as a stanza list: the prologue, then the management tail or the bond and every bridge group (its shape is `StanzasPrologue` and `ManagementHasNoBridges`) |
| CloudStackInterfaces.BridgeGroups | cloudstack/big_patch.py:1630-1678 | one stanza group per bridge entry, in order, the k-th built from the k-th entry |
| CloudStackInterfaces.StanzasPrologue | cloudstack/big_patch.py:1524-1559 | the file opens with the loopback stanza, then the PXE stanza, then one `bond-master <bond_name>` stanza per member in list order |
| CloudStackInterfaces.ComputeBridgePorts | cloudstack/big_patch.py:1644-1678 | a tagged compute bridge gets a `<bond>.<vlan>` port stanza with `vlan-raw-device <bond>` before the bridge, whose `bridge_ports` is that port; an untagged bridge sits on the bond |
| CloudStackInterfaces.ManagementHasNoBridges | cloudstack/big_patch.py:1561-1620 | a management node's file holds no bridge stanza |
| CloudStackInterfaces.RenderStartsWithLoopback | cloudstack/big_patch.py:1525-1526 | the text starts with `auto lo` / `iface lo inet loopback` |
| CloudStackInterfaces.AppendPrologue | cloudstack/big_patch.py:1525-1559 | the `+=` loop over the bond members yields the text of the prologue stanzas |
| CloudStackInterfaces.AppendBridges | cloudstack/big_patch.py:1630-1678 | the `+=` loop over the bridges appends the text of every bridge group, or raises as the first bad entry raises |
| CloudStackInterfaces.GenerateInterfaceConfig | cloudstack/big_patch.py:1524-1678 | the generated text is exactly the rendering of the node's stanzas, and it fails exactly when building them fails |
| CloudStackDeploy.Enqueue | cloudstack/big_patch.py:2303-2308 | a management node becomes `MANAGEMENT_NODE` and enters no queue; any other node is appended once to `node_q`, `node_mgmtintf_q` and `xen_check_bond_q`; nothing else changes |
| CloudStackDeploy.XenCompute | cloudstack/big_patch.py:2310 | a node takes part in pool formation exactly when the compute OS is xenserver and its role is compute |
| CloudStackDeploy.NewPool | cloudstack/big_patch.py:2310-2328 | a new pool: the node as master, size 1, the four slave-side arrays opened with `(`, and the master's vlans and inets as complete arrays (corrected form; as written see MasterArraysAsWritten) |
| CloudStackDeploy.AddMember | cloudstack/big_patch.py:2335-2350 | a joining slave adds one to the size and appends its label and its bridges' addresses, netmasks and gateways |
| CloudStackDeploy.ReadMasterRow | cloudstack/big_patch.py:2321-2324 | a master's bridge: its vlan (falsy as `''`) and its inet, read in that order |
| CloudStackDeploy.ReadMasterRows | cloudstack/big_patch.py:2320-2326 | one row per bridge entry, in order; the first entry that raises decides |
| CloudStackDeploy.MasterRows | cloudstack/big_patch.py:2319-2326 | no rows for falsy `bridges`, else the rows of its entries |
| CloudStackDeploy.ReadSlaveRow | cloudstack/big_patch.py:2339-2347 | a slave's bridge: address, netmask and gateway, each `''` when absent |
| CloudStackDeploy.ReadSlaveRows | cloudstack/big_patch.py:2338-2350 | one row per bridge entry, in order; the first entry that raises decides |
| CloudStackDeploy.SlaveRows | cloudstack/big_patch.py:2337-2350 | no rows for falsy `bridges`, else the rows of its entries |
| CloudStackDeploy.Route | cloudstack/big_patch.py:2302-2352 | a node outside pool formation is only queued; a new pool whose name is unhashable raises TypeError; otherwise the node's pool joins the table, a new pool with the node as master and size 1, an existing pool with its master kept and its size one larger; `MANAGEMENT_NODE` moves as queueing says |
| CloudStackDeploy.RouteAll | cloudstack/big_patch.py:2302-2352 | the built nodes routed in input order from empty tables (its properties are the `RouteAll…` lemmas below) |
| CloudStackDeploy.BecomeMaster | cloudstack/big_patch.py:2310-2333 | a new pool with the node as master is added; the node goes on both master queues; the other queues are unchanged |
| CloudStackDeploy.BecomeSlave | cloudstack/big_patch.py:2334-2352 | the node joins its pool and goes on both slave queues; the other queues are unchanged |
| CloudStackDeploy.EntryHas | cloudstack/big_patch.py:2277 | `key in entry` on a non-dict entry: a substring test on a string, an element test on a list, TypeError on a scalar |
| CloudStackDeploy.MissingKeyError | cloudstack/big_patch.py:2277-2290 | the `not in` tests on a non-dict entry raise only TypeError or KeyError of a key missing from the configuration; with every default present only TypeError; a scalar entry raises TypeError at the first test |
| CloudStackDeploy.NonDictEntryError | cloudstack/big_patch.py:2277-2299 | a non-dict entry raises TypeError, or KeyError of a `default_<key>` or `pxe_gw` missing from the configuration; a scalar entry, or a configuration with every default and `pxe_gw`, gives TypeError |
| CloudStackDeploy.NonDictMissingDefault | cloudstack/big_patch.py:2277-2278 | a string or list entry without `pxe_interface` raises KeyError('default_pxe_interface') when the configuration has no such default, TypeError otherwise |
| CloudStackDeploy.AsNodeConfig | cloudstack/big_patch.py:2276-2299 | a dict entry gives its fields; any other entry gives the exception the defaulting raises on it (`NonDictEntryError`) |
| CloudStackDeploy.BuildEntry | cloudstack/big_patch.py:2276-2301 | a dict entry is defaulted and built (`BuildNode`); any other entry raises TypeError or KeyError of a key missing from the configuration |
| CloudStackDeploy.Step | cloudstack/big_patch.py:2276-2352 | one pass of the loop: the entry is built, then the node routed |
| CloudStackDeploy.ApplyAll | cloudstack/big_patch.py:2276-2352 | the loop over `config['nodes']`: each entry is built and routed before the next one is read, and the first failure ends it |
| CloudStackDeploy.BuildEach | cloudstack/big_patch.py:2276-2301 | one node per entry, in order, when every entry builds |
| CloudStackDeploy.ApplyAllRoutesBuiltNodes | cloudstack/big_patch.py:2276-2352 | a completed loop that builds and routes in turn ends where routing the built nodes ends |
| CloudStackDeploy.Close | cloudstack/big_patch.py:2356-2360 | the closing loop closes every pool's four slave-side arrays and changes nothing else |
| CloudStackDeploy.ClosePool | cloudstack/big_patch.py:2356-2360 | `)` appended to a pool's slave labels, addresses, netmasks and gateways; the master-side arrays are left alone |
| CloudStackDeploy.RouteAllQueues | cloudstack/big_patch.py:2303-2308 | after routing, the three general queues hold exactly the non-management nodes in input order, and `MANAGEMENT_NODE` is the last management node |
| CloudStackDeploy.RouteMasterKeys | cloudstack/big_patch.py:2310-2352 | routing a xenserver compute node makes its pool a master pool, and nothing else adds one |
| CloudStackDeploy.RouteAllPools | cloudstack/big_patch.py:2310-2352 | the pools are exactly those the compute nodes name; each pool's master is its first compute node, its size is the number of its compute nodes, and its slave labels are those of the later ones, in order |
| CloudStackDeploy.PoolsHaveMembers | cloudstack/big_patch.py:2310-2352 | a pool is named iff it has at least one compute node |
| CloudStackDeploy.RouteAllMasterSlaveQueues | cloudstack/big_patch.py:2310-2352 | the master queues hold each pool's first node and the slave queues the later ones, each in input order |
| CloudStackDeploy.LeadersFollowersPartition | cloudstack/big_patch.py:2310-2352 | masters and slaves together are exactly the xenserver compute nodes, as a multiset |
| CloudStackDeploy.LeadersPerPool | cloudstack/big_patch.py:2310-2333 | there is exactly one master per pool |
| CloudStackDeploy.MasterNeverReplaced | cloudstack/big_patch.py:2310-2333 | first wins: routing more nodes never replaces a pool's master |
| CloudStackDeploy.MasterQueueMatchesPools | cloudstack/big_patch.py:2310-2333 | the master queue is as long as the pool table |
| CloudStackDeploy.ClosedSlaveLabels | cloudstack/big_patch.py:2334-2360 | after closing, a pool's slave-label string is the bash array of its later members' labels |
| CloudStackDeploy.RouteAllArraysShaped | cloudstack/big_patch.py:2310-2352 | while routing, each pool's four slave-side strings are open arrays and its two master-side strings are complete arrays (corrected form; as written see MasterArraysAsWritten and RoutedMasterArraysAsWritten) |
| CloudStackDeploy.ClosedArraysBracketed | cloudstack/big_patch.py:2310-2360 | after closing, all six strings of every pool are complete bash arrays (corrected form: as written, a bridge-less master's two strings stay `(`, see RoutedMasterArraysAsWritten) |
| CloudStackDeploy.MasterArraysAsWritten | cloudstack/big_patch.py:2313-2328 | as written, a master's `bond_vlans`/`bond_inets` fail as its bridge rows fail; with bridges they are the complete bash arrays of those rows |
| CloudStackDeploy.MasterArraysAsWrittenAgree | cloudstack/big_patch.py:2313-2328 | the arrays as written equal the corrected arrays exactly when the master's `bridges` is truthy |
| CloudStackDeploy.RouteAllMasterArraysOfMaster | cloudstack/big_patch.py:2310-2352 | after routing, every pool's `bond_vlans`/`bond_inets` are the (corrected) bash arrays of its master's bridge rows, and those rows read without error |
| CloudStackDeploy.RoutedMasterArraysAsWritten | cloudstack/big_patch.py:2313-2328 | a routed pool's master-side strings equal what the source writes for its master exactly when the master's `bridges` is truthy |
| CloudStackDeploy.MasterWithoutBridgesUnclosed | cloudstack/big_patch.py:2319-2328 | a master with no bridges gets `(`, which is no bash array, while the corrected master reads back as the empty array |
| CloudStackDeploy.MissingPackage | cloudstack/big_patch.py:2377-2391 | no package is missing exactly when each check's package file is staged; the package reported belongs to a check whose condition holds |
| CloudStackDeploy.Plan | cloudstack/big_patch.py:2377-2477 | no phase starts iff a package is missing; the management setup and reboot run iff there is a management node; cluster joining runs unless the compute OS is ubuntu or centos; the last phase is the management reboot when there is one |
| CloudStackDeploy.DeployPlan | cloudstack/big_patch.py:2266-2391 | a missing `compute_os` or `management_os` raises KeyError; success needs `nodes` |
| CloudStackDeploy.DeployPlanParts | cloudstack/big_patch.py:2266-2477 | a definitional step, not a property of the source: `DeployPlan` unfolded into the closed routing state and the plan for it, used by `XenDeployCoversNodes` |
| CloudStackDeploy.XenPlan | cloudstack/big_patch.py:2393-2477 | the xenserver phases in their order, with the management setup first and its reboot last when there is a management node |
| CloudStackDeploy.XenDeployCoversNodes | cloudstack/big_patch.py:2276-2477 | in a xenserver run the IP-assignment and join phases together cover every compute node once, and set-up and bond checks cover exactly the non-management nodes in order |
| CloudStackDeploy.QueuesCovered | cloudstack/big_patch.py:2303-2360 | the master and slave queues together cover the compute nodes once, and closing leaves the queues alone |
| CloudStackDeployment.MasterColumns | cloudstack/big_patch.py:2319-2328 | the `+=` loop over a new master's bridges yields the open vlan and inet arrays of its rows, or the first error |
| CloudStackDeployment.MasterArrays | cloudstack/big_patch.py:2313-2328 | a new master's `bond_vlans`/`bond_inets` are complete bash arrays of its bridge rows (corrected form) |
| CloudStackDeployment.SlaveColumns | cloudstack/big_patch.py:2338-2350 | the `+=` loop over a slave's bridges yields the elements appended to the pool's address, netmask and gateway arrays |
| CloudStackDeployment.SlaveArrays | cloudstack/big_patch.py:2337-2350 | the same, with `if node.bridges:` around the loop |
| CloudStackDeployment.CloseEach | cloudstack/big_patch.py:2356-2360 | every pool comes out closed, and the key set is unchanged |
| CloudStackDeployment.Deployment.constructor | cloudstack/big_patch.py:2263-2275 | empty queues, no management node, no pools |
| CloudStackDeployment.Deployment.AddMaster | cloudstack/big_patch.py:2310-2333 | the state moves as `BecomeMaster` says |
| CloudStackDeployment.Deployment.AddSlave | cloudstack/big_patch.py:2334-2352 | the state moves as `BecomeSlave` says |
| CloudStackDeployment.Deployment.RouteNode | cloudstack/big_patch.py:2302-2352 | routing one node updates the tables as `Route` does, or reports its error |
| CloudStackDeployment.Deployment.ClosePools | cloudstack/big_patch.py:2356-2360 | the tables become `Close` of the old tables |
| CloudStackDeployment.Deployment.RouteEntry | cloudstack/big_patch.py:2276-2352 | one pass of the loop: the entry is defaulted, built and routed, or its error is reported |
| CloudStackDeployment.Deployment.RouteNodes | cloudstack/big_patch.py:2276-2352 | the loop over the node entries ends in the state of `ApplyAll`, or stops with its first error |
| CloudStackDeployment.Deployment.DeployToAll | cloudstack/big_patch.py:2259-2477 | the phases started and the final tables are those of `DeployPlan`, and it fails exactly as `DeployPlan` fails |
| OpenStackEnv.Percent | openstack/big_patch.py:281-284 | Python `%` with `%s` conversions succeeds only with one argument per conversion |
| OpenStackEnv.InvalidMappingsAsWritten | openstack/big_patch.py:281-284 | the invalid-mappings format with its one argument raises TypeError |
| OpenStackEnv.InvalidMappingsMessage | openstack/big_patch.py:281-284 | the intended message is that format applied to the node and the input |
| OpenStackEnv.FirstInvalidServer | openstack/big_patch.py:139-146 | the first server entry without an integer port: none iff all are valid, and every earlier entry is valid |
| OpenStackEnv.FindInvalidServer | openstack/big_patch.py:141-145 | the validation loop stops at the first invalid entry |
| OpenStackEnv.IsIntLiteral | openstack/big_patch.py:142 | Python 2's `int(s)` accepts `s`: optional surrounding whitespace, an optional sign, at least one digit |
| OpenStackEnv.ServerValid | openstack/big_patch.py:141-145 | `int(s.split(':')[1])` raises nothing: there is a second `:` field and it is an integer |
| OpenStackEnv.Environment.constructor | openstack/big_patch.py:101-106 | `neutron_id` is `neutron`; no servers and no credentials are set |
| OpenStackEnv.Environment.SetNeutronId | openstack/big_patch.py:134-137 | an empty id raises and leaves the id as it was; any other id is stored |
| OpenStackEnv.Environment.SetBigswitchServers | openstack/big_patch.py:139-146 | stores the string iff every entry has an integer second `:` field; otherwise it raises for the first bad entry and leaves the setting unchanged |
| OpenStackEnv.Environment.SetBigswitchAuth | openstack/big_patch.py:148-152 | credentials without `:` raise and change nothing; others are stored |
| OpenStackEnv.NonEmptyParts | openstack/big_patch.py:264-265 | `[i for i in xs if i]` keeps exactly the non-empty parts |
| OpenStackEnv.NonEmptyPartsAppend | openstack/big_patch.py:264-265 | the filter keeps order: it distributes over concatenation |
| OpenStackEnv.BondInterfaceList | openstack/big_patch.py:264-265 | the parsed names are non-empty and comma-free, and an empty setting gives `[]` |
| OpenStackEnv.BondInterfaceListJoin | openstack/big_patch.py:264-265 | a list of valid names joined by commas parses back to itself |
| OpenStackEnv.BondInterfaceListNormal | openstack/big_patch.py:264-265 | parsing, joining and parsing again gives the first parse |
| OpenStackEnv.HostMatches | openstack/big_patch.py:263 | `n['hostname'] == node`, raising for a node without a hostname |
| OpenStackEnv.BondLookup | openstack/big_patch.py:261-267 | the bond interfaces of the first node with that hostname, `[]` when there is none; a non-string setting raises |
| OpenStackEnv.BondLookupAbsent | openstack/big_patch.py:261-267 | a node absent from the configuration has no bond interfaces |
| OpenStackEnv.BondLookupFirst | openstack/big_patch.py:261-267 | the first node with that hostname decides the result |
| OpenStackEnv.ConfigBondInterfaces | openstack/big_patch.py:261-267 | the lookup loop computes `BondLookup` |
| OpenStackEnv.StandaloneBondInterfaces | openstack/big_patch.py:431-437 | `bond_interfaces or ''`, parsed: a falsy setting gives `[]` |
| OpenStackEnv.MappingValidCount | openstack/big_patch.py:279-280 | an entry splits into two `:` parts iff it holds exactly one `:` |
| OpenStackEnv.CleanMappings | openstack/big_patch.py:274-286 | succeeds iff every entry (after stripping trailing commas) is a pair; the result is the stripped entries joined by `,` in order; a failure carries the intended message |
| OpenStackEnv.CleanBridgeMappings | openstack/big_patch.py:274-286 | the cleaning loop computes `CleanMappings` (a non-pair entry raises the intended message; as written the message build raises TypeError, see `InvalidMappingsAsWritten`) |
| OpenStackEnv.CleanMappingsIdempotent | openstack/big_patch.py:274-286 | a cleaned setting cleans to itself |
| OpenStackEnv.MappingsOfLast | openstack/big_patch.py:269-273 | `n.get('bridge_mappings')` of the last node with that hostname (no `break`), `None` when no node has it |
| OpenStackEnv.MappingsOfLastWins | openstack/big_patch.py:269-273 | the lookup has no `break`: the last node with that hostname decides |
| OpenStackEnv.ConfigMappings | openstack/big_patch.py:269-286 | a failed hostname lookup raises; when the last node with that hostname has no mappings, the call raises "Missing bridge_mappings" for the node; otherwise its setting is cleaned (a non-pair entry raises the intended message; as written the message build raises TypeError, see `InvalidMappingsAsWritten`) |
| OpenStackEnv.ConfigBridgeMappings | openstack/big_patch.py:269-286 | the lookup loop, then the cleaning loop, compute `ConfigMappings` (a non-pair entry raises the intended message; as written the message build raises TypeError, see `InvalidMappingsAsWritten`) |
| OpenStackEnv.StandaloneMappings | openstack/big_patch.py:442-453 | a falsy setting raises "Missing bridge_mappings setting"; a non-empty one is cleaned (a non-pair entry raises the intended message; as written the message build raises TypeError, see `InvalidMappingsAsWritten`) |
| OpenStackEnv.BondKeyInjective | openstack/big_patch.py:630-635 | different indexes give different `bond_int<k>` keys |
| OpenStackEnv.PutIndexed | openstack/big_patch.py:630-632 | every interface is stored under its indexed key, and other keys keep their values |
| OpenStackEnv.PadBondInts | openstack/big_patch.py:630-635 | `bond_int<k>` is the k-th interface for every index; with one interface, `bond_int1` repeats `bond_int0`; with none, nothing is added |
| OpenStackEnv.Benign | openstack/big_patch.py:764-770 | the three facter warnings the filter skips: a `Device … does not exist.` line, `Unable to add resolve nil for fact`, and `ls: cannot access /dev/s` |
| OpenStackEnv.Kept | openstack/big_patch.py:760-770 | the kept lines are never benign and are no more than the input |
| OpenStackEnv.KeptAppend | openstack/big_patch.py:760-770 | the filter keeps order |
| OpenStackEnv.KeptExactly | openstack/big_patch.py:760-770 | exactly the non-benign lines are kept |
| OpenStackEnv.Remaining | openstack/big_patch.py:760-772 | the error output split into lines, the benign ones dropped, the rest joined by newlines |
| OpenStackEnv.RemainingFails | openstack/big_patch.py:760-775 | the node fails iff a non-empty remainder survives; output of benign warnings only passes |
| OpenStackEnv.CheckPuppetErrors | openstack/big_patch.py:760-775 | no error when nothing remains; otherwise the failure message carries the remaining lines |
| OpenStackTemplate.TemplateSettings | openstack/big_patch.py:854-865 | the 14 defaults, overridden by exactly the caller's keys |
| OpenStackTemplate.TemplateSettingsDefaults | openstack/big_patch.py:854-865 | an unsupplied `physical_bridge` is `br-ovs-bond0`, and an unsupplied `neutron_path` is falsy |
| OpenStackTemplate.EscapeIsTwoReplaces | openstack/big_patch.py:878 | doubling backslashes and then escaping quotes is one escape per character |
| OpenStackTemplate.Escape | openstack/big_patch.py:878 | every backslash doubled and every quote escaped, so the result is no shorter than the contents |
| OpenStackTemplate.FileBlock | openstack/big_patch.py:879-884 | the `file` resource for one path with the escaped contents as its content attribute |
| OpenStackTemplate.FileBlocks | openstack/big_patch.py:877-884 | one file block per replacement file, in order |
| OpenStackTemplate.Manifest | openstack/big_patch.py:867-885 | the main body formatted with the settings, the neutron body when `neutron_path` is set, the bond section when `bond_interfaces` is set, then the file blocks |
| OpenStackTemplate.EscapeReadsBack | openstack/big_patch.py:877-884 | puppet reads an escaped single-quoted string back as the original contents |
| OpenStackTemplate.FileBlockContent | openstack/big_patch.py:877-884 | a file block's content attribute holds exactly the file's contents |
| OpenStackTemplate.ManifestSections | openstack/big_patch.py:867-885 | the manifest starts with the main body; the neutron body follows iff `neutron_path` is set; the bond section follows iff `bond_interfaces` is set; then come the file blocks |
| OpenStackTemplate.ManifestAddFile | openstack/big_patch.py:877-894 | each replacement file adds its block at the end, in the order added |
| OpenStackTemplate.Overlay | openstack/big_patch.py:863-865 | the caller's settings are copied over the defaults |
| OpenStackTemplate.AppendFileBlocks | openstack/big_patch.py:877-884 | the loop appends one block per file, in order |
| OpenStackTemplate.PuppetTemplate.constructor | openstack/big_patch.py:854-865 | the settings are `TemplateSettings` of the caller's, and there are no files to replace |
| OpenStackTemplate.PuppetTemplate.SetSetting | openstack/big_patch.py:854-865 | one setting is replaced; the tested settings stay present |
| OpenStackTemplate.PuppetTemplate.AddReplacementFile | openstack/big_patch.py:887-894 | the file is appended to the list |
| OpenStackTemplate.PuppetTemplate.GetString | openstack/big_patch.py:867-885 | the returned manifest is `Manifest` of the current settings and files |
| Bcf3Node.MajorVersion | bcf3/lib/node.py:17 | the version is the dot-free text of `str(os_version)` before its first `.` |
| Bcf3Node.MajorVersionPrefix | bcf3/lib/node.py:17 | the first part of a split on `.` is the prefix before the first dot |
| Bcf3Node.LowerText | bcf3/lib/node.py:13-16 | `.lower()` succeeds exactly on strings and lower-cases them |
| Bcf3Node.ReadNode | bcf3/lib/node.py:12-26 | role and os are lower-cased and the version truncated; every other field is the configured value, `br_bond` none when absent; succeeds iff every subscripted key is present and role and os are strings; a missing hostname raises KeyError |
| Bcf3Node.IvsPackages | bcf3/lib/node.py:41-49 | rpm packages for the RPM set, deb packages for the DEB set, none otherwise |
| Bcf3Node.Unsupported | bcf3/lib/node.py:53-54 | a CentOS release outside the CentOS versions, or an Ubuntu release outside the Ubuntu versions |
| Bcf3Node.UnsupportedMessage | bcf3/lib/node.py:56-57 | `<os> <os_version> is not supported` |
| Bcf3Node.Tokens | bcf3/lib/node.py:61-64 | the package name cut at every `-` and then each part at every `_`, in order |
| Bcf3Node.FirstIvs | bcf3/lib/node.py:65-68 | the first token that lower-cases to `ivs`, with no earlier one |
| Bcf3Node.IvsVersionOf | bcf3/lib/node.py:59-68 | the token right after the first `ivs` token; none when there is no such token; an `ivs` as the last token raises |
| Bcf3Node.PackageTokens | bcf3/lib/node.py:61-64 | the loop splits on `-` and then each part on `_`, in order |
| Bcf3Node.FirstIvsAt | bcf3/lib/node.py:65-68 | the search finds the first matching index |
| Bcf3Node.UplinkFlagsSplit | bcf3/lib/node.py:102-107 | the shell sees one `-u <intf>` pair per uplink, in order |
| Bcf3Node.InternalPortsSplit | bcf3/lib/node.py:110-115 | the shell sees one `--internal-port=<key>` word per bridge, in order |
| Bcf3Node.QuotedJoinSplit | bcf3/lib/node.py:118-134 | a separated list of quoted items splits at the quotes back into the items and the separators |
| Bcf3Node.Node.constructor | bcf3/lib/node.py:5-57 | every field is copied; the packages are chosen by os; an unsupported CentOS or Ubuntu release ends with `skip` true and an error, otherwise `skip` is the configured value and there is no error |
| Bcf3Node.Node.ScanIvsVersion | bcf3/lib/node.py:59-68 | the version becomes the token after the first `ivs`, or stays none; an `ivs` in last place raises |
| Bcf3Node.Node.IsReadyToDeploy | bcf3/lib/node.py:71-76 | with T5 and T6 different, false exactly in deploy mode T5 |
| Bcf3Node.Node.SetBashScriptPath | bcf3/lib/node.py:79-80 | sets only its own field |
| Bcf3Node.Node.SetPuppetScriptPath | bcf3/lib/node.py:83-84 | sets only its own field |
| Bcf3Node.Node.SetSelinuxScriptPath | bcf3/lib/node.py:87-88 | sets only its own field |
| Bcf3Node.Node.SetOspurgeScriptPath | bcf3/lib/node.py:91-92 | sets only its own field |
| Bcf3Node.Node.GetNetworkVlanRanges | bcf3/lib/node.py:95-99 | `physnet:lower:upper`, whose three `:` fields are the three values |
| Bcf3Node.Node.GetUplinkIntfsForIvs | bcf3/lib/node.py:102-107 | ` -u <intf>` for each uplink in order (`''` for none); a non-string item makes the join raise |
| Bcf3Node.Node.GetIvsInternalPorts | bcf3/lib/node.py:110-115 | ` --internal-port=<key>` for each bridge in order; no bridges (`None`) raises |
| Bcf3Node.Node.GetIvsInternalPortIps | bcf3/lib/node.py:118-124 | `"<key>,<ip>"` for every bridge, joined by commas, reading back item by item |
| Bcf3Node.Node.GetAllOvsBrs | bcf3/lib/node.py:127-134 | the quoted bridge names, then the quoted names to clean up, then the quoted bond bridge, space-separated and reading back in that order |
| Bcf3Node.Node.GetControllersForNeutron | bcf3/lib/node.py:137-138 | the controllers joined by commas; a comma-free list splits back to itself |
| Bcf3Node.NewNode | bcf3/lib/node.py:5-68 | `Node(node_config, env)` raises as reading the configuration or the version scan raises, and otherwise is a fresh node whose fields, packages, `skip` and `error` are those `__init__` sets from the configuration reads, with that version |
| Bcf3Node.PackageVersion | bcf3/lib/node.py:59-68 | no package or an empty name has no version; a version found holds neither `-` nor `_` |
| Bcf3Node.VlanRangesSplit | bcf3/lib/node.py:95-99 | three `:`-free fields joined by `:` split back apart |
| PyStrings.Split | openstack/big_patch.py:264 | `s.split(c)` for a one-character separator: always at least one part |
| PyStrings.SplitPartsAreSeparatorFree | openstack/big_patch.py:264 | no part of a split holds the separator |
| PyStrings.JoinSplit | openstack/big_patch.py:264 | joining the parts of a split with the separator gives back the string |
| PyStrings.SplitJoin | openstack/big_patch.py:577 | a non-empty list of separator-free strings joined by the separator splits back into the list |
| PyStrings.Join | openstack/big_patch.py:772 | `sep.join(xs)` |
| PyStrings.LStrip | openstack/big_patch.py:142 | leading whitespace removed: a suffix of the input whose removed part is all whitespace and whose first character is not |
| PyStrings.RStrip | openstack/big_patch.py:142 | trailing whitespace removed: a prefix of the input whose removed part is all whitespace and whose last character is not |
| PyStrings.Strip | openstack/big_patch.py:142 | `s.strip()`: no longer than the input, with no whitespace at either end |
| PyStrings.StripIdempotent | openstack/big_patch.py:142 | stripping twice equals stripping once |
| PyStrings.RStripChar | openstack/big_patch.py:446 | `s.rstrip(c)`: the prefix left once every trailing `c` is removed |
| PyStrings.Lower | bcf3/lib/node.py:13-16 | `s.lower()` on a byte string: same length, each ASCII capital lower-cased, every other character kept |
| PyStrings.SplitLines | openstack/big_patch.py:762 | `s.splitlines()`: no line for the empty string, at least one otherwise, and no line holds `\n` or `\r` (`BreakFree`); `SplitLinesJoin` ties the lines to the text |
| PyStrings.SplitLinesJoin | openstack/big_patch.py:762 | on text without `\r`, the lines joined with `\n` are the text itself, less its one final `\n` when it ends in one |
| PyStrings.NatText | openstack/big_patch.py:630-631 | `'%s' % k` of a natural number: at least one digit, at least two from 10 on |
| PyStrings.NatTextInjective | openstack/big_patch.py:630-631 | distinct numbers have distinct decimal texts |

## Left out

- Worker threads, `Queue` objects and the `join` barriers between phases (cloudstack/big_patch.py:2393-2477): the model gives the queue contents and the list of phases in the order they start (`Plan`), not their concurrent execution.
- Subprocesses, SSH/SCP, timeouts and `safe_print`: process and network I/O.
- The Fuel CLI, `urllib2`, `tempfile` and every file write of `generate_command_for_node`: I/O. The generated text is modelled, not the write.
- Whether a package file exists in `/tmp`: the set of existing file names is a parameter.
- The `print` in `get_node_bond_interfaces` and the log output: I/O.
- The template bodies (`MGMT_PUPPET`, `PuppetTemplate.main_body` and the others) are opaque strings, and `%` with a dict on the right is a `format` parameter: library behaviour over constant text.
- `yaml.load`: the parsed document is the input, as a `Value`.
- `bcf3.0/with_ivs/lib/cleaner.py` is not part of this model: it only wraps external clients.
- `Node.__str__` and `Node.__repr__` of bcf3/lib/node.py: debug formatting only.
- A Python tuple is treated as a list, since YAML produces no tuples.
- `%s` of a list or a dict (Python's `repr`) renders as `''`: no rule of the core depends on that text.
- Iterating a non-empty dict fails with an error, because CPython 2's dict order is an implementation detail.
- Python's `True == 1` and `hash(True) == hash(1)` key collision is not modelled: `Value` keys compare structurally.
- A missing attribute (`AttributeError`) is reported as `TypeError`: no caller tells the two apart.
- The eight per-pool dicts of `deploy_to_all` (`MASTER_NODES`, `POOL_SIZES` and the six strings) are one map of records: the source always adds a pool to all of them together.
- Only the state of the routing loop is held in `Deployment`. The other globals (`RELEASE_NAME`, the hash of the configuration) are left out.
- `int()` of Python 2 is taken as an optional sign and decimal digits around surrounding whitespace. Underscores, long suffixes and other bases are left out.
- A YAML float `os_version` is read through its `%s` text.
- `ivs_pkg_map` and the environment attributes of bcf3/lib/node.py are records with exactly the fields read.
- The `constants` module of bcf3 is not part of this model: its values (`DST_DIR`, `CENTOS_VERSIONS`, `RPM_OS_SET`, `T5`, `T6`, `TO_BE_CLEANED_BR_NAME` …) are parameters.
- Bcf3Node.Node.IsReadyToDeploy: its contract states the result only for `T5 != T6`, the only case the constants allow.
- The rest of the `puppet_settings` construction in `deploy_to_node`, beyond the `bond_int` padding: it only copies environment values into a dict.
- The `sudo rm -rf /tmp/<hostname>*` run for every node (cloudstack/big_patch.py:2302) and the write of each pool's IP assignment script (2362-2375): I/O. The six strings that script receives are modelled.
- CloudStackDeploy.DeployPlan: does not model the exceptions `generate_command_for_node` (cloudstack/big_patch.py:1750, called at 2354 for every node) can raise before any thread starts. Those are the reads of `generate_interface_config` (1753), `','.join(node.bond_interfaces)` (1756), the `get_raw_value` reads of each bridge's name, vlan and inet (1810-1814), of the PXE interface's interface and inet (1837-1838) and of the management bond (1898-1908). A configuration that raises there yields a plan here. The files it writes are I/O and are not modelled either.
- CloudStackDeployment.Deployment.DeployToAll: the same exceptions of `generate_command_for_node` are not modelled, for the same reason; it follows `DeployPlan`.
- CloudStackDeploy.NewPool: the routing model (`NewPool`, `BecomeMaster`, `Route`, `RouteAll`, `DeployPlan` and `Deployment`) builds the corrected master arrays, `()` for a xenserver master without bridges, where the source leaves `(` (cloudstack/big_patch.py:2317-2328; see Findings). `RoutedMasterArraysAsWritten` states exactly where the two differ.
- CloudStackDeploy.RouteAllArraysShaped: "the master-side strings are complete arrays" holds of the corrected routing model only; for a bridge-less master the source's strings are `(`.
- CloudStackDeploy.ClosedArraysBracketed: "all six strings are complete" holds of the corrected routing model only; as written, a bridge-less master's `bond_vlans` and `bond_inets` stay `(` after closing.
- PyStrings.SplitLines: the read-back `SplitLinesJoin` is proved for text without `\r` only; `\r` and `\r\n` breaks are modelled but not read back.
- OpenStackEnv.StandaloneMappings, OpenStackEnv.ConfigMappings: their contracts leave out a truthy setting that is not a string (the body raises TypeError).
- OpenStackEnv.ConfigMappings: for an entry that does not split into two parts, it raises the intended "Invalid bridge_mappings" message, where the source's `%` at openstack/big_patch.py:281-284 raises TypeError (see Findings).
- OpenStackEnv.ConfigBridgeMappings: follows `ConfigMappings`, so a non-pair entry raises the intended message, not the source's TypeError.
- OpenStackEnv.StandaloneMappings: for a non-pair entry it raises the intended message, where the source's `%` at openstack/big_patch.py:448-451 raises TypeError.
- OpenStackEnv.CleanBridgeMappings: follows `CleanMappings`, the corrected half of the Findings row, so a non-pair entry gives the intended message, not the source's TypeError.

## Findings

| source | as written | input that shows it | evidently intended | confidence | as-written member | corrected member |
|---|---|---|---|---|---|---|
| cloudstack/big_patch.py:2319-2328 | a new master's `bond_vlans` and `bond_inets` are opened with `(` and closed with `)` only inside `if node.bridges:`, and the closing loop over the pools does not touch them | a xenserver master whose `bridges` is `[]` or missing | both strings are complete bash arrays, `()` for no bridges | not executed | CloudStackDeploy.MasterWithoutBridgesUnclosed | CloudStackDeployment.MasterArrays |
| openstack/big_patch.py:281-284 and 448-451 | the invalid-bridge-mappings message has two `%s` but only one argument after `%`, so building it raises TypeError instead of the intended exception | any bridge_mappings entry that does not split into two parts, such as `physnet1` | the message names the node and the input | not executed | OpenStackEnv.InvalidMappingsAsWritten | OpenStackEnv.CleanMappings |

/** The Debian `/etc/network/interfaces` text `generate_interface_config`
    writes for a CloudStack node (cloudstack/big_patch.py:1524-1678): the
    text is a sequence of stanzas, and the generator appends their
    renderings one by one. */
module CloudStackInterfaces {
  import opened Py
  import opened PyStrings
  import opened CloudStackNodes
  import opened CloudStackArrays

  const Static: Value := Str("static")

  /** One `auto`/`iface` stanza of the interfaces file. */
  datatype Stanza =
    | Loopback
    | PxeDynamic(intf: string, inet: string, gw: string)
    | PxeStatic(intf: string, inet: string, address: string, netmask: string, dns: string, gw: string)
    | BondMember(intf: string, bond: string)
    | Bond(bond: string, inet: string)
    | BondStatic(bond: string, inet: string, address: string, netmask: string)
    | VlanPort(port: string, inet: string, raw: string)
    | VlanStatic(port: string, inet: string, raw: string, address: string, netmask: string)
    | Bridge(name: string, inet: string, port: string)
    | BridgeStatic(name: string, inet: string, address: string, netmask: string, gateway: string, port: string)

  const BondOptions: string := "  bond-mode 0\n  bond-slaves none\n  bond-updelay 15000\n  bond-miimon 50\n\n"
  const BridgeOptions: string := "  bridge_stp off\n  up /sbin/ifconfig $IFACE up || /bin/true\n\n"

  /** The opening two lines every stanza but the loopback one shares. */
  function Head(iface: string, inet: string): string {
    "auto " + iface + "\n  iface " + iface + " inet " + inet + "\n"
  }

  /** The exact text of one stanza. */
  function Render(st: Stanza): string {
    match st
    case Loopback => "auto lo\n  iface lo inet loopback\n\n"
    case PxeDynamic(intf, inet, gw) =>
      Head(intf, inet) + "  up route add default gw " + gw + "\n\n"
    case PxeStatic(intf, inet, address, netmask, dns, gw) =>
      Head(intf, inet) + "  address " + address + "\n  netmask " + netmask + "\n  dns-nameservers " + dns +
      "\n  up route add default gw " + gw + "\n\n"
    case BondMember(intf, bond) =>
      Head(intf, "manual") + "  bond-master " + bond + "\n\n"
    case Bond(bond, inet) =>
      Head(bond, inet) + BondOptions
    case BondStatic(bond, inet, address, netmask) =>
      Head(bond, inet) + "  address " + address + "\n  netmask " + netmask + "\n" + BondOptions
    case VlanPort(port, inet, raw) =>
      Head(port, inet) + "  vlan-raw-device " + raw + "\n\n"
    case VlanStatic(port, inet, raw, address, netmask) =>
      Head(port, inet) + "  vlan-raw-device " + raw + "\n  address " + address + "\n  netmask " + netmask + "\n\n"
    case Bridge(name, inet, port) =>
      Head(name, inet) + "  bridge_ports " + port + "\n" + BridgeOptions
    case BridgeStatic(name, inet, address, netmask, gateway, port) =>
      Head(name, inet) + "  address " + address + "\n  netmask " + netmask + "\n  gateway " + gateway +
      "\n  bridge_ports " + port + "\n" + BridgeOptions
  }

  /** The stanzas' texts one after the other. */
  function RenderAll(ss: seq<Stanza>): string
    decreases |ss|
  {
    if |ss| == 0 then "" else RenderAll(ss[..|ss| - 1]) + Render(ss[|ss| - 1])
  }

  /** Groups of stanzas one after the other. */
  function Flatten(gs: seq<seq<Stanza>>): seq<Stanza>
    decreases |gs|
  {
    if |gs| == 0 then [] else Flatten(gs[..|gs| - 1]) + gs[|gs| - 1]
  }

  // ---------------------------------------------------------------------
  // What the generator emits

  /** The PXE interface stanza: DHCP-style unless `inet` is `static`. */
  function PxeStanza(node: Node): (r: Result<Stanza>)
    ensures RawValue(node.pxeInterface, "interface").Err? ==> r == Err(RawValue(node.pxeInterface, "interface").error)
    ensures r.Ok? ==> RawValue(node.pxeInterface, "interface").Ok? && RawValue(node.pxeInterface, "inet").Ok?
    ensures r.Ok? ==> (r.value.PxeDynamic? || r.value.PxeStatic?)
                      && (r.value.PxeStatic? <==> RawValue(node.pxeInterface, "inet").value == Static)
    ensures r.Ok? ==> r.value.intf == Text(RawValue(node.pxeInterface, "interface").value)
                      && r.value.inet == Text(RawValue(node.pxeInterface, "inet").value)
                      && r.value.gw == Text(node.pxeGw)
  {
    var intf :- RawValue(node.pxeInterface, "interface");
    var inet :- RawValue(node.pxeInterface, "inet");
    if inet != Static then Ok(PxeDynamic(Text(intf), Text(inet), Text(node.pxeGw)))
    else
      var address :- RawValue(node.pxeInterface, "address");
      var netmask :- RawValue(node.pxeInterface, "netmask");
      var dns :- RawValue(node.pxeInterface, "dns-nameservers");
      Ok(PxeStatic(Text(intf), Text(inet), Text(address), Text(netmask), Text(dns), Text(node.pxeGw)))
  }

  /** One `bond-master` stanza per bond member, in list order. */
  function MemberStanzas(members: seq<Value>, bond: string): (r: seq<Stanza>)
    ensures |r| == |members|
    ensures forall k :: 0 <= k < |members| ==> r[k] == BondMember(Text(members[k]), bond)
  {
    seq(|members|, k requires 0 <= k < |members| => BondMember(Text(members[k]), bond))
  }

  /** The management node's bond, tagged with `management_bond.vlan` when it has one. */
  function ManagementStanzas(node: Node, bond: string): Result<seq<Stanza>> {
    var vlan :- RawValue(node.managementBond, "vlan");
    var inet :- RawValue(node.managementBond, "inet");
    var untagged := if Truthy(vlan) then [Bond(bond, "manual")] else [];
    var port := bond + "." + Text(vlan);
    if inet == Static then
      var address :- RawValue(node.managementBond, "address");
      var netmask :- RawValue(node.managementBond, "netmask");
      if Truthy(vlan) then Ok(untagged + [VlanStatic(port, Text(inet), bond, Text(address), Text(netmask))])
      else Ok([BondStatic(bond, Text(inet), Text(address), Text(netmask))])
    else if Truthy(vlan) then Ok(untagged + [VlanPort(port, Text(inet), bond)])
    else Ok([Bond(bond, Text(inet))])
  }

  /** The port a bridge is attached to: `<bond>.<vlan>` for a tagged bridge. */
  function BridgePort(bond: string, vlan: Value): string {
    if Truthy(vlan) then bond + "." + Text(vlan) else bond
  }

  /** The stanzas one entry of `node.bridges` contributes. */
  function BridgeStanzas(bridge: Value, node: Node, bond: string): Result<seq<Stanza>> {
    var name :- FieldText(bridge, "name");
    var vlan :- RawValue(bridge, "vlan");
    var inet :- RawValue(bridge, "inet");
    var address :- OptionalText(bridge, "address");
    var netmask :- OptionalText(bridge, "netmask");
    var gateway :- OptionalText(bridge, "gateway");
    var port := BridgePort(bond, vlan);
    var tagged := if Truthy(vlan) then [VlanPort(port, "manual", bond)] else [];
    if IsCompute(node) && inet != Static then Ok(tagged + [Bridge(name, Text(inet), port)])
    else if IsCompute(node) then Ok(tagged + [BridgeStatic(name, Text(inet), address, netmask, gateway, port)])
    else Ok(tagged)
  }

  /** The per-bridge groups, in list order; the first failure wins. */
  function BridgeGroups(items: seq<Value>, node: Node, bond: string): (r: Result<seq<seq<Stanza>>>)
    ensures r.Ok? ==> |r.value| == |items|
    ensures r.Ok? ==> forall k :: 0 <= k < |items| ==> BridgeStanzas(items[k], node, bond) == Ok(r.value[k])
    decreases |items|
  {
    if |items| == 0 then Ok([])
    else
      var front :- BridgeGroups(items[..|items| - 1], node, bond);
      var last :- BridgeStanzas(items[|items| - 1], node, bond);
      Ok(front + [last])
  }

  /** Loopback, PXE and bond-member stanzas: the part every node shares. */
  function Prologue(pxe: Stanza, members: seq<Value>, bond: string): seq<Stanza> {
    [Loopback, pxe] + MemberStanzas(members, bond)
  }

  /** Every stanza of a node's interfaces file, in the order they are written. */
  function Stanzas(node: Node): Result<seq<Stanza>> {
    var pxe :- PxeStanza(node);
    var members :- Iterate(node.bondInterfaces);
    var bond := Text(node.bondName);
    if IsManagement(node) then
      var tail :- ManagementStanzas(node, bond);
      Ok(Prologue(pxe, members, bond) + tail)
    else
      var items :- Iterate(node.bridges);
      var groups :- BridgeGroups(items, node, bond);
      Ok(Prologue(pxe, members, bond) + [Bond(bond, "manual")] + Flatten(groups))
  }

  // ---------------------------------------------------------------------
  // Properties of the stanza list

  /** The file opens with the loopback stanza, then the PXE stanza, then
      one `bond-master <bond_name>` stanza per bond member in list order. */
  lemma StanzasPrologue(node: Node)
    requires Stanzas(node).Ok?
    ensures var ss := Stanzas(node).value;
            var members := Iterate(node.bondInterfaces).value;
            && Iterate(node.bondInterfaces).Ok?
            && |ss| >= 2 + |members|
            && ss[0] == Loopback
            && PxeStanza(node) == Ok(ss[1])
            && forall k :: 0 <= k < |members| ==> ss[2 + k] == BondMember(Text(members[k]), Text(node.bondName))
  {
    var ss := Stanzas(node).value;
    var pro := Prologue(PxeStanza(node).value, Iterate(node.bondInterfaces).value, Text(node.bondName));
    assert ss[..|pro|] == pro;
  }

  /** On a compute node, a bridge with a vlan gets a `<bond>.<vlan>` port
      stanza on the bond right before its bridge stanza, whose
      `bridge_ports` is that port; an untagged bridge sits on the bond itself. */
  lemma ComputeBridgePorts(bridge: Value, node: Node, bond: string)
    requires IsCompute(node) && BridgeStanzas(bridge, node, bond).Ok?
    ensures var g := BridgeStanzas(bridge, node, bond).value;
            var vlan := RawValue(bridge, "vlan").value;
            && RawValue(bridge, "vlan").Ok?
            && (Truthy(vlan) ==>
                  |g| == 2 && g[0] == VlanPort(bond + "." + Text(vlan), "manual", bond) &&
                  (g[1].Bridge? || g[1].BridgeStatic?) && g[1].port == g[0].port)
            && (!Truthy(vlan) ==> |g| == 1 && (g[0].Bridge? || g[0].BridgeStatic?) && g[0].port == bond)
  {
  }

  /** A management node gets no bridge stanzas: its tail is the bond or its vlan. */
  lemma ManagementHasNoBridges(node: Node)
    requires IsManagement(node) && Stanzas(node).Ok?
    ensures forall k :: 0 <= k < |Stanzas(node).value| ==>
              !Stanzas(node).value[k].Bridge? && !Stanzas(node).value[k].BridgeStatic?
  {
    var pxe := PxeStanza(node).value;
    var bond := Text(node.bondName);
    assert !pxe.Bridge? && !pxe.BridgeStatic?;
  }

  // ---------------------------------------------------------------------
  // Facts about rendering

  lemma RenderAllAppend(ss: seq<Stanza>, s: Stanza)
    ensures RenderAll(ss + [s]) == RenderAll(ss) + Render(s)
  {
    assert (ss + [s])[..|ss|] == ss;
  }

  lemma {:induction false} RenderAllSplit(ss: seq<Stanza>, ts: seq<Stanza>)
    ensures RenderAll(ss + ts) == RenderAll(ss) + RenderAll(ts)
    decreases |ts|
  {
    if |ts| == 0 {
      assert ss + ts == ss;
    } else {
      var front := ts[..|ts| - 1];
      assert ss + ts == (ss + front) + [ts[|ts| - 1]];
      RenderAllAppend(ss + front, ts[|ts| - 1]);
      RenderAllSplit(ss, front);
    }
  }

  lemma FlattenAppend(gs: seq<seq<Stanza>>, g: seq<Stanza>)
    ensures Flatten(gs + [g]) == Flatten(gs) + g
  {
    assert (gs + [g])[..|gs|] == gs;
  }

  /** The generated text begins with the loopback stanza. */
  lemma RenderStartsWithLoopback(ss: seq<Stanza>)
    requires |ss| > 0 && ss[0] == Loopback
    ensures StartsWith(RenderAll(ss), "auto lo\n  iface lo inet loopback\n\n")
  {
    RenderAllHead(ss);
    StartsWithAppend(Render(ss[0]), RenderAll(ss[1..]));
  }

  lemma RenderAllHead(ss: seq<Stanza>)
    requires |ss| > 0
    ensures RenderAll(ss) == Render(ss[0]) + RenderAll(ss[1..])
  {
    assert ss == [ss[0]] + ss[1..];
    RenderAllSplit([ss[0]], ss[1..]);
    assert RenderAll([ss[0]]) == Render(ss[0]) by {
      assert [ss[0]][..0] == [];
    }
  }

  lemma {:induction false} BridgeGroupsErrPersists(items: seq<Value>, node: Node, bond: string, i: nat)
    requires i <= |items| && BridgeGroups(items[..i], node, bond).Err?
    ensures BridgeGroups(items, node, bond) == Err(BridgeGroups(items[..i], node, bond).error)
    decreases |items| - i
  {
    if i < |items| {
      var front := items[..|items| - 1];
      assert front[..i] == items[..i];
      BridgeGroupsErrPersists(front, node, bond, i);
    } else {
      assert items[..i] == items;
    }
  }

  // ---------------------------------------------------------------------
  // The generator

  lemma BridgeGroupsSnoc(items: seq<Value>, node: Node, bond: string, j: nat, groups: seq<seq<Stanza>>)
    requires j < |items| && BridgeGroups(items[..j], node, bond) == Ok(groups)
    ensures BridgeStanzas(items[j], node, bond).Err? ==>
              BridgeGroups(items[..j + 1], node, bond) == Err(BridgeStanzas(items[j], node, bond).error)
    ensures BridgeStanzas(items[j], node, bond).Ok? ==>
              BridgeGroups(items[..j + 1], node, bond) == Ok(groups + [BridgeStanzas(items[j], node, bond).value])
  {
    assert items[..j + 1][..j] == items[..j];
  }

  lemma RenderGroupStep(head: seq<Stanza>, groups: seq<seq<Stanza>>, g: seq<Stanza>)
    ensures RenderAll(head + Flatten(groups + [g])) == RenderAll(head + Flatten(groups)) + RenderAll(g)
  {
    FlattenAppend(groups, g);
    assert head + Flatten(groups + [g]) == (head + Flatten(groups)) + g;
    RenderAllSplit(head + Flatten(groups), g);
  }

  lemma PrologueStart(pxe: Stanza, members: seq<Value>, bond: string)
    ensures RenderAll(Prologue(pxe, members[..0], bond)) == Render(Loopback) + Render(pxe)
  {
    assert Prologue(pxe, members[..0], bond) == [Loopback, pxe];
    RenderAllPair(Loopback, pxe);
  }

  lemma RenderAllPair(a: Stanza, b: Stanza)
    ensures RenderAll([a, b]) == Render(a) + Render(b)
  {
    assert [a, b][..1] == [a];
    assert [a][..0] == [];
    assert RenderAll([a]) == "" + Render(a) == Render(a);
  }

  lemma PrologueStep(pxe: Stanza, members: seq<Value>, i: nat, bond: string)
    requires i < |members|
    ensures RenderAll(Prologue(pxe, members[..i + 1], bond))
            == RenderAll(Prologue(pxe, members[..i], bond)) + Render(BondMember(Text(members[i]), bond))
  {
    var st := BondMember(Text(members[i]), bond);
    assert Prologue(pxe, members[..i + 1], bond) == Prologue(pxe, members[..i], bond) + [st];
    RenderAllAppend(Prologue(pxe, members[..i], bond), st);
  }

  /** The loopback, PXE and `for intf in node.bond_interfaces` part. */
  method AppendPrologue(pxe: Stanza, members: seq<Value>, bond: string) returns (config: string)
    ensures config == RenderAll(Prologue(pxe, members, bond))
  {
    config := Render(Loopback) + Render(pxe);
    PrologueStart(pxe, members, bond);
    var i := 0;
    while i < |members|
      invariant 0 <= i <= |members|
      invariant config == RenderAll(Prologue(pxe, members[..i], bond))
    {
      PrologueStep(pxe, members, i, bond);
      config := config + Render(BondMember(Text(members[i]), bond));
      i := i + 1;
    }
    assert members[..i] == members;
  }

  /** The `for bridge in node.bridges` loop, appending to the text of `head`. */
  method AppendBridges(config: string, ghost head: seq<Stanza>, items: seq<Value>, node: Node, bond: string)
    returns (r: Result<string>)
    requires config == RenderAll(head)
    ensures r.Ok? <==> BridgeGroups(items, node, bond).Ok?
    ensures r.Ok? ==> r.value == RenderAll(head + Flatten(BridgeGroups(items, node, bond).value))
    ensures r.Err? ==> r.error == BridgeGroups(items, node, bond).error
  {
    var text := config;
    ghost var groups: seq<seq<Stanza>> := [];
    assert head + Flatten(groups) == head;
    var j := 0;
    while j < |items|
      invariant 0 <= j <= |items|
      invariant BridgeGroups(items[..j], node, bond) == Ok(groups)
      invariant text == RenderAll(head + Flatten(groups))
    {
      BridgeGroupsSnoc(items, node, bond, j, groups);
      var g := BridgeStanzas(items[j], node, bond);
      if g.Err? {
        BridgeGroupsErrPersists(items, node, bond, j + 1);
        return Err(g.error);
      }
      RenderGroupStep(head, groups, g.value);
      text := text + RenderAll(g.value);
      groups := groups + [g.value];
      j := j + 1;
    }
    assert items[..j] == items;
    return Ok(text);
  }

  /** `generate_interface_config` without the final file write: grows the
      text stanza by stanza with `+=`. */
  method GenerateInterfaceConfig(node: Node) returns (r: Result<string>)
    ensures r.Ok? <==> Stanzas(node).Ok?
    ensures r.Ok? ==> r.value == RenderAll(Stanzas(node).value)
    ensures r.Err? ==> r.error == Stanzas(node).error
  {
    var pxe := PxeStanza(node);
    if pxe.Err? {
      return Err(pxe.error);
    }
    var it := Iterate(node.bondInterfaces);
    if it.Err? {
      return Err(it.error);
    }
    var bond := Text(node.bondName);
    var config := AppendPrologue(pxe.value, it.value, bond);
    ghost var prologue := Prologue(pxe.value, it.value, bond);
    if IsManagement(node) {
      var tail := ManagementStanzas(node, bond);
      if tail.Err? {
        return Err(tail.error);
      }
      RenderAllSplit(prologue, tail.value);
      return Ok(config + RenderAll(tail.value));
    }
    RenderAllAppend(prologue, Bond(bond, "manual"));
    config := config + Render(Bond(bond, "manual"));
    var bs := Iterate(node.bridges);
    if bs.Err? {
      return Err(bs.error);
    }
    r := AppendBridges(config, prologue + [Bond(bond, "manual")], bs.value, node, bond);
  }
}

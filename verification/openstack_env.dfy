/** The OpenStack deployer's environment (openstack/big_patch.py): the
    validating setters of `Environment`, the per-node lookups of the
    YAML-configured and of the standalone environment, the `bond_int<k>`
    entries `deploy_to_node` adds to the puppet settings, and the filter
    over puppet's error output. */
module OpenStackEnv {
  import opened Py
  import opened PyStrings

  // ---------------------------------------------------------------------
  // `fmt % args` for formats whose only conversions are `%s` and `%%`

  /** Number of `%s` conversions in `fmt`. */
  function Slots(fmt: string): nat
    decreases |fmt|
  {
    if |fmt| < 2 then 0
    else if fmt[0] == '%' && fmt[1] == 's' then 1 + Slots(fmt[2..])
    else if fmt[0] == '%' && fmt[1] == '%' then Slots(fmt[2..])
    else Slots(fmt[1..])
  }

  /** Python's `fmt % tuple(args)`: every `%s` takes the next argument;
      too few arguments ("not enough arguments for format string") and
      arguments left over ("not all arguments converted") both raise
      TypeError, any other conversion is outside this model and raises
      ValueError. A single string `s` on the right of `%` is `args == [s]`. */
  function Percent(fmt: string, args: seq<string>): (r: Result<string>)
    ensures r.Ok? ==> Slots(fmt) == |args|
    decreases |fmt|
  {
    if |fmt| == 0 then
      if |args| == 0 then Ok("") else Err(TypeError)
    else if fmt[0] != '%' then
      var rest :- Percent(fmt[1..], args);
      Ok([fmt[0]] + rest)
    else if |fmt| >= 2 && fmt[1] == 's' then
      if |args| == 0 then Err(TypeError)
      else
        var rest :- Percent(fmt[2..], args[1..]);
        Ok(args[0] + rest)
    else if |fmt| >= 2 && fmt[1] == '%' then
      var rest :- Percent(fmt[2..], args);
      Ok("%" + rest)
    else Err(ValueError)
  }

  /** Text without `%` is copied through. */
  lemma {:induction false} PercentLiteral(lit: string, rest: string, args: seq<string>)
    requires '%' !in lit
    ensures Percent(lit + rest, args) ==
            (if Percent(rest, args).Ok? then Ok(lit + Percent(rest, args).value) else Percent(rest, args))
    decreases |lit|
  {
    if |lit| > 0 {
      assert (lit + rest)[1..] == lit[1..] + rest;
      assert (lit + rest)[0] == lit[0];
      PercentLiteral(lit[1..], rest, args);
      if Percent(rest, args).Ok? {
        var v := Percent(rest, args).value;
        assert [lit[0]] + (lit[1..] + v) == lit + v;
      }
    } else {
      assert lit + rest == rest;
      if Percent(rest, args).Ok? {
        assert lit + Percent(rest, args).value == Percent(rest, args).value;
      }
    }
  }

  /** A `%s` takes the first argument. */
  lemma PercentSlot(rest: string, args: seq<string>)
    ensures Percent("%s" + rest, args) ==
            (if |args| == 0 then Err(TypeError)
             else if Percent(rest, args[1..]).Ok? then Ok(args[0] + Percent(rest, args[1..]).value)
             else Percent(rest, args[1..]))
  {
    assert ("%s" + rest)[2..] == rest;
  }

  // ---------------------------------------------------------------------
  // Messages of the exceptions the environment raises

  const EmptyClusterId := "A non-empty cluster-id must be specified."
  const MissingMappings := "Missing bridge_mappings setting"
  const MappingsHead := "Invalid bridge_mappings setting for node "
  const MappingsMiddle := MappingsRule + (MappingsList + (MappingsPairs + MappingsInput))
  const MappingsRule := ". bridge_mappings should be a "
  const MappingsList := "comma-separated list of "
  const MappingsPairs := "physnetName:bridgeName pairs."
  const MappingsInput := "\nInput -> "
  /** The format of the invalid-bridge-mappings message: two `%s`, node and input. */
  const MappingsFormat := MappingsHead + ("%s" + (MappingsMiddle + ("%s" + " ")))

  function InvalidServer(s: string): string {
    "Invalid server \"" + s + "\".\nFormat should be ip:port"
  }

  function InvalidCredentials(auth: string): string {
    "Invalid credentials \"" + auth + "\".\nFormat should be user:pass"
  }

  function MissingMappingsFor(node: string): string {
    "Node " + node + " is missing bridge_mappings which is required for the OVS agent."
  }

  lemma HeadHasNoPercent()
    ensures '%' !in MappingsHead
  {
  }

  lemma RuleHasNoPercent()
    ensures '%' !in MappingsRule
  {
  }

  lemma ListHasNoPercent()
    ensures '%' !in MappingsList
  {
  }

  lemma PairsHaveNoPercent()
    ensures '%' !in MappingsPairs
  {
  }

  lemma MappingsFormatShape()
    ensures '%' !in MappingsHead && '%' !in MappingsMiddle
  {
    HeadHasNoPercent();
    RuleHasNoPercent();
    ListHasNoPercent();
    PairsHaveNoPercent();
    assert '%' !in MappingsInput;
  }

  /** As written, the invalid-mappings message is formatted with the input
      alone: the format's second `%s` finds no argument, so the `%` raises
      TypeError and the intended message is never built. */
  lemma InvalidMappingsAsWritten(mappings: string)
    ensures Percent(MappingsFormat, [mappings]) == Err(TypeError)
  {
    MappingsFormatShape();
    var tail := MappingsMiddle + ("%s" + " ");
    PercentLiteral(MappingsHead, "%s" + tail, [mappings]);
    PercentSlot(tail, [mappings]);
    assert [mappings][1..] == [];
    PercentLiteral(MappingsMiddle, "%s" + " ", []);
    PercentSlot(" ", []);
  }

  lemma PercentSpace()
    ensures Percent(" ", []) == Ok(" ")
  {
    assert " "[1..] == [];
    assert [' '] + "" == " ";
  }

  /** The message the format evidently intends, with the node and the input. */
  function InvalidMappingsMessage(node: string, mappings: string): (m: string)
    ensures Percent(MappingsFormat, [node, mappings]) == Ok(m)
  {
    MappingsFormatShape();
    var tail := MappingsMiddle + ("%s" + " ");
    PercentLiteral(MappingsHead, "%s" + tail, [node, mappings]);
    PercentSlot(tail, [node, mappings]);
    assert [node, mappings][1..] == [mappings];
    PercentLiteral(MappingsMiddle, "%s" + " ", [mappings]);
    PercentSlot(" ", [mappings]);
    assert [mappings][1..] == [];
    PercentSpace();
    assert Percent("%s" + " ", [mappings]) == Ok(mappings + " ");
    assert Percent(tail, [mappings]) == Ok(MappingsMiddle + (mappings + " "));
    assert Percent("%s" + tail, [node, mappings]) == Ok(node + (MappingsMiddle + (mappings + " ")));
    MappingsHead + (node + (MappingsMiddle + (mappings + " ")))
  }

  // ---------------------------------------------------------------------
  // Environment setters

  predicate IsDigit(ch: char) {
    '0' <= ch <= '9'
  }

  /** Python 2's `int(s)` accepts `s`: once surrounding whitespace is
      stripped, an optional sign followed by at least one decimal digit. */
  predicate IsIntLiteral(s: string) {
    var t := Strip(s);
    var d := if |t| > 0 && (t[0] == '+' || t[0] == '-') then t[1..] else t;
    |d| > 0 && forall k :: 0 <= k < |d| ==> IsDigit(d[k])
  }

  /** `int(s.split(':')[1])` raises nothing: there is a second `:` field
      and it is an integer. */
  predicate ServerValid(s: string) {
    var parts := Split(s, ':');
    |parts| >= 2 && IsIntLiteral(parts[1])
  }

  /** Index of the first `false`. */
  function FirstFalse(bs: seq<bool>): (r: Option<nat>)
    ensures r.None? <==> forall k :: 0 <= k < |bs| ==> bs[k]
    ensures r.Some? ==> r.value < |bs| && !bs[r.value]
    ensures r.Some? ==> forall k :: 0 <= k < r.value ==> bs[k]
    decreases |bs|
  {
    if |bs| == 0 then None
    else if !bs[0] then Some(0)
    else
      match FirstFalse(bs[1..])
      case None => None
      case Some(i) => Some(i + 1)
  }

  /** Whether each entry is valid. */
  function Validity(entries: seq<string>): (r: seq<bool>)
    ensures |r| == |entries|
    ensures forall k :: 0 <= k < |entries| ==> r[k] == ServerValid(entries[k])
  {
    seq(|entries|, k requires 0 <= k < |entries| => ServerValid(entries[k]))
  }

  /** Index of the first entry that fails `ServerValid`. */
  function FirstInvalidServer(entries: seq<string>): (r: Option<nat>)
    ensures r.None? <==> forall k :: 0 <= k < |entries| ==> ServerValid(entries[k])
    ensures r.Some? ==> r.value < |entries| && !ServerValid(entries[r.value])
    ensures r.Some? ==> forall k :: 0 <= k < r.value ==> ServerValid(entries[k])
  {
    var v := Validity(entries);
    assert forall k :: 0 <= k < |entries| ==> v[k] == ServerValid(entries[k]);
    FirstFalse(v)
  }

  lemma FirstInvalidServerAt(entries: seq<string>, i: nat)
    requires i < |entries| && !ServerValid(entries[i])
    requires forall k :: 0 <= k < i ==> ServerValid(entries[k])
    ensures FirstInvalidServer(entries) == Some(i)
  {
  }

  /** The validation loop of `set_bigswitch_servers`, stopping at the
      first entry that raises. */
  method FindInvalidServer(entries: seq<string>) returns (bad: Option<nat>)
    ensures bad == FirstInvalidServer(entries)
  {
    var i := 0;
    while i < |entries|
      invariant 0 <= i <= |entries|
      invariant forall k :: 0 <= k < i ==> ServerValid(entries[k])
    {
      if !ServerValid(entries[i]) {
        FirstInvalidServerAt(entries, i);
        return Some(i);
      }
      i := i + 1;
    }
    return None;
  }

  /** The settings shared by every environment that the setters validate. */
  class Environment {
    var neutronId: string
    var bigswitchServers: Option<string>
    var bigswitchAuth: Option<string>

    constructor ()
      ensures neutronId == "neutron"
      ensures bigswitchServers == None && bigswitchAuth == None
    {
      neutronId := "neutron";
      bigswitchServers := None;
      bigswitchAuth := None;
    }

    /** An empty id is refused and leaves the id as it was. */
    method SetNeutronId(id: string) returns (err: Option<PyError>)
      modifies this`neutronId
      ensures id == "" ==> err == Some(Raised(EmptyClusterId)) && neutronId == old(neutronId)
      ensures id != "" ==> err == None && neutronId == id
    {
      if id == "" {
        return Some(Raised(EmptyClusterId));
      }
      neutronId := id;
      return None;
    }

    /** Every comma-separated entry must carry an integer port; the first
        entry that does not is reported and nothing is stored. */
    method SetBigswitchServers(servers: string) returns (err: Option<PyError>)
      modifies this`bigswitchServers
      ensures err == None <==> FirstInvalidServer(Split(servers, ',')).None?
      ensures err == None ==> bigswitchServers == Some(servers)
      ensures err != None ==> bigswitchServers == old(bigswitchServers)
      ensures var f := FirstInvalidServer(Split(servers, ','));
              f.Some? ==> err == Some(Raised(InvalidServer(Split(servers, ',')[f.value])))
    {
      var entries := Split(servers, ',');
      var bad := FindInvalidServer(entries);
      if bad.Some? {
        return Some(Raised(InvalidServer(entries[bad.value])));
      }
      bigswitchServers := Some(servers);
      return None;
    }

    /** Credentials without a `:` are refused and nothing is stored. */
    method SetBigswitchAuth(auth: string) returns (err: Option<PyError>)
      modifies this`bigswitchAuth
      ensures ':' !in auth ==> err == Some(Raised(InvalidCredentials(auth))) && bigswitchAuth == old(bigswitchAuth)
      ensures ':' in auth ==> err == None && bigswitchAuth == Some(auth)
    {
      if ':' !in auth {
        return Some(Raised(InvalidCredentials(auth)));
      }
      bigswitchAuth := Some(auth);
      return None;
    }
  }

  // ---------------------------------------------------------------------
  // Bond interfaces

  /** The list comprehension `[i for i in xs if i]`. */
  function NonEmptyParts(xs: seq<string>): (r: seq<string>)
    ensures forall x :: x in r <==> x in xs && x != ""
    ensures |r| <= |xs|
    decreases |xs|
  {
    if |xs| == 0 then []
    else (if xs[0] == "" then [] else [xs[0]]) + NonEmptyParts(xs[1..])
  }

  /** The filter keeps order: it distributes over concatenation. */
  lemma {:induction false} NonEmptyPartsAppend(xs: seq<string>, ys: seq<string>)
    ensures NonEmptyParts(xs + ys) == NonEmptyParts(xs) + NonEmptyParts(ys)
    decreases |xs|
  {
    if |xs| == 0 {
      assert xs + ys == ys;
    } else {
      assert (xs + ys)[1..] == xs[1..] + ys;
      NonEmptyPartsAppend(xs[1..], ys);
    }
  }

  lemma {:induction false} NonEmptyPartsIdle(xs: seq<string>)
    requires forall k :: 0 <= k < |xs| ==> xs[k] != ""
    ensures NonEmptyParts(xs) == xs
    decreases |xs|
  {
    if |xs| > 0 {
      NonEmptyPartsIdle(xs[1..]);
    }
  }

  /** The bond interfaces of a comma-separated setting: the non-empty
      parts, in order. */
  function BondInterfaceList(s: string): (r: seq<string>)
    ensures forall k :: 0 <= k < |r| ==> r[k] != "" && ',' !in r[k]
    ensures s == "" ==> r == []
  {
    BondPartsCommaFree(s);
    NonEmptyParts(Split(s, ','))
  }

  lemma BondPartsCommaFree(s: string)
    ensures forall k :: 0 <= k < |NonEmptyParts(Split(s, ','))| ==>
              NonEmptyParts(Split(s, ','))[k] != "" && ',' !in NonEmptyParts(Split(s, ','))[k]
  {
    var xs := Split(s, ',');
    var r := NonEmptyParts(xs);
    SplitPartsAreSeparatorFree(s, ',');
    forall k | 0 <= k < |r|
      ensures r[k] != "" && ',' !in r[k]
    {
      assert r[k] in r;
      var j :| 0 <= j < |xs| && xs[j] == r[k];
    }
  }

  /** The parsed list joined back with commas parses to itself, and the
      parse of a joined list of valid names gives the list back. */
  lemma BondInterfaceListJoin(xs: seq<string>)
    requires forall k :: 0 <= k < |xs| ==> xs[k] != "" && ',' !in xs[k]
    ensures BondInterfaceList(Join(xs, ",")) == xs
  {
    if |xs| > 0 {
      SplitJoin(xs, ',');
      NonEmptyPartsIdle(xs);
    }
  }

  lemma BondInterfaceListNormal(s: string)
    ensures BondInterfaceList(Join(BondInterfaceList(s), ",")) == BondInterfaceList(s)
  {
    BondInterfaceListJoin(BondInterfaceList(s));
  }

  /** The node's `hostname` is `node` (raising as `n['hostname']` does). */
  function HostMatches(n: Value, node: string): (r: Result<bool>)
    ensures r.Ok? <==> n.Dict? && "hostname" in n.fields
    ensures r.Ok? ==> (r.value <==> n.fields["hostname"] == Str(node))
  {
    var h :- Subscript(n, "hostname");
    Ok(h == Str(node))
  }

  /** `n.get(key, default)` on a dict. */
  function Get(n: Value, key: string, default: Value): Value
    requires n.Dict?
  {
    if key in n.fields then n.fields[key] else default
  }

  /** The bond interfaces of the first node named `node`, `[]` if none is. */
  function BondLookup(nodes: seq<Value>, node: string): Result<seq<string>>
    decreases |nodes|
  {
    if |nodes| == 0 then Ok([])
    else
      var here :- HostMatches(nodes[0], node);
      if here then
        var b := Get(nodes[0], "bond_interfaces", Str(""));
        if b.Str? then Ok(BondInterfaceList(b.s)) else Err(TypeError)
      else BondLookup(nodes[1..], node)
  }

  /** A node absent from the configuration has no bond interfaces. */
  lemma {:induction false} BondLookupAbsent(nodes: seq<Value>, node: string)
    requires forall k :: 0 <= k < |nodes| ==> HostMatches(nodes[k], node) == Ok(false)
    ensures BondLookup(nodes, node) == Ok([])
    decreases |nodes|
  {
    if |nodes| > 0 {
      BondLookupAbsent(nodes[1..], node);
    }
  }

  /** The first node named `node` decides the result. */
  lemma {:induction false} BondLookupFirst(nodes: seq<Value>, node: string, i: nat, s: string)
    requires i < |nodes|
    requires forall k :: 0 <= k < i ==> HostMatches(nodes[k], node) == Ok(false)
    requires HostMatches(nodes[i], node) == Ok(true)
    requires Get(nodes[i], "bond_interfaces", Str("")) == Str(s)
    ensures BondLookup(nodes, node) == Ok(BondInterfaceList(s))
    decreases i
  {
    if i > 0 {
      BondLookupFirst(nodes[1..], node, i - 1, s);
    }
  }

  /** `ConfigEnvironment.get_node_bond_interfaces` over `settings['nodes']`. */
  method ConfigBondInterfaces(nodes: seq<Value>, node: string) returns (r: Result<seq<string>>)
    ensures r == BondLookup(nodes, node)
  {
    var i := 0;
    while i < |nodes|
      invariant 0 <= i <= |nodes|
      invariant BondLookup(nodes[i..], node) == BondLookup(nodes, node)
    {
      assert nodes[i..][1..] == nodes[i + 1..];
      var here := HostMatches(nodes[i], node);
      if here.Err? {
        return Err(here.error);
      }
      if here.value {
        var b := Get(nodes[i], "bond_interfaces", Str(""));
        if !b.Str? {
          return Err(TypeError);
        }
        return Ok(BondInterfaceList(b.s));
      }
      i := i + 1;
    }
    return Ok([]);
  }

  /** `StandaloneEnvironment`'s bond interfaces: `bond_interfaces or ''`, parsed. */
  function StandaloneBondInterfaces(bondInterfaces: Value): (r: Result<seq<string>>)
    ensures !Truthy(bondInterfaces) ==> r == Ok([])
    ensures bondInterfaces.Str? ==> r == Ok(BondInterfaceList(bondInterfaces.s))
  {
    if !Truthy(bondInterfaces) then Ok([])
    else if bondInterfaces.Str? then Ok(BondInterfaceList(bondInterfaces.s))
    else Err(TypeError)
  }

  // ---------------------------------------------------------------------
  // Bridge mappings

  /** An entry splits on `:` into exactly two parts. */
  predicate MappingValid(m: string) {
    |Split(m, ':')| == 2
  }

  lemma MappingValidCount(m: string)
    ensures MappingValid(m) <==> Count(m, ':') == 1
  {
    SplitLength(m, ':');
  }

  /** The entries of a mappings setting: trailing commas dropped, then split. */
  function MappingEntries(mappings: string): (r: seq<string>)
    ensures |r| >= 1
    ensures forall k :: 0 <= k < |r| ==> ',' !in r[k]
  {
    SplitPartsAreSeparatorFree(RStripChar(mappings, ','), ',');
    Split(RStripChar(mappings, ','), ',')
  }

  function Stripped(xs: seq<string>): (r: seq<string>)
    ensures |r| == |xs|
    ensures forall k :: 0 <= k < |xs| ==> r[k] == Strip(xs[k])
  {
    seq(|xs|, k requires 0 <= k < |xs| => Strip(xs[k]))
  }

  /** The cleaning loop of `get_node_bridge_mappings`: every entry must be
      a `physnet:bridge` pair, and the result is the stripped entries
      joined by `,`. The failure carries the intended message. */
  function CleanMappings(mappings: string, node: string): (r: Result<string>)
    ensures r.Ok? <==> forall k :: 0 <= k < |MappingEntries(mappings)| ==> MappingValid(MappingEntries(mappings)[k])
    ensures r.Err? ==> r.error == Raised(InvalidMappingsMessage(node, mappings))
    ensures r.Ok? ==> r.value == Join(Stripped(MappingEntries(mappings)), ",")
  {
    var entries := MappingEntries(mappings);
    if forall k :: 0 <= k < |entries| ==> MappingValid(entries[k]) then Ok(Join(Stripped(entries), ","))
    else Err(Raised(InvalidMappingsMessage(node, mappings)))
  }

  method CleanBridgeMappings(mappings: string, node: string) returns (r: Result<string>)
    ensures r == CleanMappings(mappings, node)
  {
    var entries := Split(RStripChar(mappings, ','), ',');
    var cleaned: seq<string> := [];
    var i := 0;
    while i < |entries|
      invariant 0 <= i <= |entries|
      invariant forall k :: 0 <= k < i ==> MappingValid(entries[k])
      invariant |cleaned| == i
      invariant forall k :: 0 <= k < i ==> cleaned[k] == Strip(entries[k])
    {
      if !MappingValid(entries[i]) {
        return Err(Raised(InvalidMappingsMessage(node, mappings)));
      }
      cleaned := cleaned + [Strip(entries[i])];
      i := i + 1;
    }
    assert cleaned == Stripped(entries);
    return Ok(Join(cleaned, ","));
  }

  /** The last part of a join ends it. */
  lemma {:induction false} JoinEnds(xs: seq<string>, sep: string)
    requires |xs| >= 1
    ensures var j := Join(xs, sep); var l := xs[|xs| - 1];
            |l| <= |j| && j[|j| - |l|..] == l
    decreases |xs|
  {
    if |xs| > 1 {
      JoinEnds(xs[1..], sep);
      var t := Join(xs[1..], sep);
      assert Join(xs, sep) == (xs[0] + sep) + t;
      assert Join(xs, sep)[|Join(xs, sep)| - |xs[|xs| - 1]|..] == t[|t| - |xs[|xs| - 1]|..];
    }
  }

  /** A stripped pair is still a comma-free pair, and strips to itself. */
  lemma CleanedEntryValid(e: string)
    requires MappingValid(e) && ',' !in e
    ensures ',' !in Strip(e) && MappingValid(Strip(e))
    ensures Strip(Strip(e)) == Strip(e)
    ensures Strip(e) != ""
  {
    StripKeepsAbsence(e, ',');
    StripKeepsCount(e, ':');
    MappingValidCount(e);
    MappingValidCount(Strip(e));
    StripIdempotent(e);
  }

  /** The cleaned stripped pairs already satisfy the cleaning rules. */
  lemma CleanedEntriesValid(entries: seq<string>)
    requires |entries| >= 1
    requires forall k :: 0 <= k < |entries| ==> MappingValid(entries[k]) && ',' !in entries[k]
    ensures forall k :: 0 <= k < |entries| ==> ',' !in Stripped(entries)[k] && MappingValid(Stripped(entries)[k])
    ensures forall k :: 0 <= k < |entries| ==> Strip(Stripped(entries)[k]) == Stripped(entries)[k]
    ensures Stripped(entries)[|entries| - 1] != ""
  {
    var c := Stripped(entries);
    forall k | 0 <= k < |entries|
      ensures ',' !in c[k] && MappingValid(c[k]) && Strip(c[k]) == c[k] && c[k] != ""
    {
      CleanedEntryValid(entries[k]);
    }
  }

  /** Comma-free entries, the last one non-empty, read back from their join. */
  lemma EntriesOfJoin(c: seq<string>)
    requires |c| >= 1 && c[|c| - 1] != ""
    requires forall k :: 0 <= k < |c| ==> ',' !in c[k]
    ensures MappingEntries(Join(c, ",")) == c
  {
    var out := Join(c, ",");
    assert RStripChar(out, ',') == out by {
      JoinEnds(c, ",");
      var l := c[|c| - 1];
      var tail := out[|out| - |l|..];
      assert tail == l;
      assert tail[|l| - 1] == out[|out| - 1];
      assert l[|l| - 1] in l;
      RStripCharIdle(out, ',');
    }
    assert Split(out, ',') == c by {
      SplitJoin(c, ',');
    }
  }

  /** A setting whose entries are clean and which is their join cleans to itself. */
  lemma CleanOfCleanEntries(out: string, node: string, c: seq<string>)
    requires MappingEntries(out) == c && out == Join(c, ",")
    requires forall k :: 0 <= k < |c| ==> MappingValid(c[k])
    requires forall k :: 0 <= k < |c| ==> Strip(c[k]) == c[k]
    ensures CleanMappings(out, node) == Ok(out)
  {
    assert Stripped(c) == c;
  }

  /** Cleaning is idempotent: a cleaned setting cleans to itself. */
  lemma CleanMappingsIdempotent(mappings: string, node: string)
    requires CleanMappings(mappings, node).Ok?
    ensures CleanMappings(CleanMappings(mappings, node).value, node) == CleanMappings(mappings, node)
  {
    var entries := MappingEntries(mappings);
    var c := Stripped(entries);
    var out := Join(c, ",");
    assert CleanMappings(mappings, node) == Ok(out);
    assert MappingEntries(out) == c by {
      CleanedEntriesValid(entries);
      EntriesOfJoin(c);
    }
    assert forall k :: 0 <= k < |c| ==> MappingValid(c[k]) && Strip(c[k]) == c[k] by {
      CleanedEntriesValid(entries);
    }
    CleanOfCleanEntries(out, node, c);
  }

  /** `n.get('bridge_mappings')` of the LAST node named `node` (the loop has
      no `break`), `None` when no node is. */
  function MappingsOfLast(nodes: seq<Value>, node: string): Result<Value>
    decreases |nodes|
  {
    if |nodes| == 0 then Ok(Null)
    else
      var earlier :- MappingsOfLast(nodes[..|nodes| - 1], node);
      var here :- HostMatches(nodes[|nodes| - 1], node);
      if here then Ok(Get(nodes[|nodes| - 1], "bridge_mappings", Null)) else Ok(earlier)
  }

  /** A later node with the same name overrides an earlier one. */
  lemma {:induction false} MappingsOfLastWins(nodes: seq<Value>, node: string, i: nat)
    requires i < |nodes|
    requires forall k :: 0 <= k < |nodes| ==> HostMatches(nodes[k], node).Ok?
    requires HostMatches(nodes[i], node) == Ok(true)
    requires forall k :: i < k < |nodes| ==> HostMatches(nodes[k], node) == Ok(false)
    ensures MappingsOfLast(nodes, node) == Ok(Get(nodes[i], "bridge_mappings", Null))
    decreases |nodes|
  {
    var pre := nodes[..|nodes| - 1];
    if i < |nodes| - 1 {
      MappingsOfLastWins(pre, node, i);
    } else {
      MappingsOfLastDefined(pre, node);
    }
  }

  lemma {:induction false} MappingsOfLastDefined(nodes: seq<Value>, node: string)
    requires forall k :: 0 <= k < |nodes| ==> HostMatches(nodes[k], node).Ok?
    ensures MappingsOfLast(nodes, node).Ok?
    decreases |nodes|
  {
    if |nodes| > 0 {
      MappingsOfLastDefined(nodes[..|nodes| - 1], node);
    }
  }

  /** `ConfigEnvironment.get_node_bridge_mappings`: the mappings of the last node with that hostname, cleaned. */
  function ConfigMappings(nodes: seq<Value>, node: string): (r: Result<string>)
    ensures MappingsOfLast(nodes, node).Err? ==> r == Err(MappingsOfLast(nodes, node).error)
    ensures MappingsOfLast(nodes, node).Ok? && !Truthy(MappingsOfLast(nodes, node).value) ==>
              r == Err(Raised(MissingMappingsFor(node)))
    ensures MappingsOfLast(nodes, node).Ok? && MappingsOfLast(nodes, node).value.Str? &&
            MappingsOfLast(nodes, node).value.s != "" ==>
              r == CleanMappings(MappingsOfLast(nodes, node).value.s, node)
  {
    var m :- MappingsOfLast(nodes, node);
    if !Truthy(m) then Err(Raised(MissingMappingsFor(node)))
    else if !m.Str? then Err(TypeError)
    else CleanMappings(m.s, node)
  }

  /** The lookup loop followed by the cleaning loop. */
  method ConfigBridgeMappings(nodes: seq<Value>, node: string) returns (r: Result<string>)
    ensures r == ConfigMappings(nodes, node)
  {
    var m := Null;
    var i := 0;
    while i < |nodes|
      invariant 0 <= i <= |nodes|
      invariant MappingsOfLast(nodes[..i], node) == Ok(m)
    {
      assert nodes[..i + 1][..i] == nodes[..i];
      var here := HostMatches(nodes[i], node);
      if here.Err? {
        MappingsErrPersists(nodes, node, i + 1);
        return Err(here.error);
      }
      if here.value {
        m := Get(nodes[i], "bridge_mappings", Null);
      }
      i := i + 1;
    }
    assert nodes[..|nodes|] == nodes;
    if !Truthy(m) {
      return Err(Raised(MissingMappingsFor(node)));
    }
    if !m.Str? {
      return Err(TypeError);
    }
    r := CleanBridgeMappings(m.s, node);
  }

  /** A failed hostname lookup ends the search for good. */
  lemma {:induction false} MappingsErrPersists(nodes: seq<Value>, node: string, i: nat)
    requires 0 < i <= |nodes|
    requires MappingsOfLast(nodes[..i], node).Err?
    ensures MappingsOfLast(nodes, node) == MappingsOfLast(nodes[..i], node)
    decreases |nodes| - i
  {
    if i < |nodes| {
      assert nodes[..i + 1][..i] == nodes[..i];
      MappingsErrPersists(nodes, node, i + 1);
    } else {
      assert nodes[..i] == nodes;
    }
  }

  /** `StandaloneEnvironment.get_node_bridge_mappings`. */
  function StandaloneMappings(bridgeMappings: Value, node: string): (r: Result<string>)
    ensures !Truthy(bridgeMappings) ==> r == Err(Raised(MissingMappings))
    ensures bridgeMappings.Str? && bridgeMappings.s != "" ==> r == CleanMappings(bridgeMappings.s, node)
  {
    if !Truthy(bridgeMappings) then Err(Raised(MissingMappings))
    else if !bridgeMappings.Str? then Err(TypeError)
    else CleanMappings(bridgeMappings.s, node)
  }

  // ---------------------------------------------------------------------
  // `bond_int<k>` settings

  function BondKey(k: nat): string {
    "bond_int" + NatText(k)
  }

  lemma BondKeyInjective(a: nat, b: nat)
    requires BondKey(a) == BondKey(b)
    ensures a == b
  {
    assert NatText(a) == BondKey(a)[8..];
    assert NatText(b) == BondKey(b)[8..];
    NatTextInjective(a, b);
  }

  /** How many `bond_int<k>` entries the padding leaves: every interface,
      and at least two once there is one. */
  function PaddedCount(n: nat): nat {
    if n == 0 then 0 else if n < 2 then 2 else n
  }

  /** Stores the k-th interface under `key(k)`, for every k. */
  method PutIndexed(settings: map<string, Value>, bonds: seq<string>, key: nat -> string) returns (r: map<string, Value>)
    requires forall a: nat, b: nat :: key(a) == key(b) ==> a == b
    ensures r.Keys == settings.Keys + (set k: nat | k < |bonds| :: key(k))
    ensures forall k: nat :: k < |bonds| ==> r[key(k)] == Str(bonds[k])
    ensures forall x :: x in settings && (forall k: nat :: k < |bonds| ==> x != key(k)) ==> r[x] == settings[x]
  {
    r := settings;
    var i := 0;
    while i < |bonds|
      invariant 0 <= i <= |bonds|
      invariant r.Keys == settings.Keys + (set k: nat | k < i :: key(k))
      invariant forall k: nat :: k < i ==> r[key(k)] == Str(bonds[k])
      invariant forall x :: x in settings && (forall k: nat :: k < i ==> x != key(k)) ==> r[x] == settings[x]
    {
      assert (set k: nat | k < i + 1 :: key(k)) == (set k: nat | k < i :: key(k)) + {key(i)};
      r := r[key(i) := Str(bonds[i])];
      i := i + 1;
    }
  }

  /** Adds `bond_int<k>` for the k-th interface, and `bond_int1` equal to
      `bond_int0` when there is only one; with no interface the source
      skips the whole block. */
  method PadBondInts(settings: map<string, Value>, bonds: seq<string>) returns (r: map<string, Value>)
    ensures r.Keys == settings.Keys + (set k: nat | k < PaddedCount(|bonds|) :: BondKey(k))
    ensures forall k: nat :: k < PaddedCount(|bonds|) ==> r[BondKey(k)] == Str(bonds[if k < |bonds| then k else 0])
    ensures forall key :: key in settings && (forall k: nat :: k < PaddedCount(|bonds|) ==> key != BondKey(k)) ==>
              r[key] == settings[key]
  {
    if |bonds| == 0 {
      return settings;
    }
    forall a: nat, b: nat | BondKey(a) == BondKey(b)
      ensures a == b
    {
      BondKeyInjective(a, b);
    }
    if |bonds| >= 2 {
      r := PutIndexed(settings, bonds, BondKey);
    } else {
      // `bond_int1` repeats `bond_int0`: the same as putting a padded list
      var padded := bonds + [bonds[0]];
      r := PutIndexed(settings, padded, BondKey);
      assert forall k: nat :: k < 2 ==> padded[k] == bonds[if k < |bonds| then k else 0];
    }
  }

  // ---------------------------------------------------------------------
  // Puppet error output

  /** The three facter warnings that do not count as failures. */
  predicate Benign(line: string) {
    (Contains(line, "Device") && Contains(line, "does not exist."))
    || Contains(line, "Unable to add resolve nil for fact")
    || Contains(line, "ls: cannot access /dev/s")
  }

  /** The lines that are not benign, in order (folded from the right end,
      as the loop appends). */
  function Kept(lines: seq<string>): (r: seq<string>)
    ensures forall k :: 0 <= k < |r| ==> !Benign(r[k])
    ensures |r| <= |lines|
    decreases |lines|
  {
    if |lines| == 0 then []
    else
      var l := lines[|lines| - 1];
      Kept(lines[..|lines| - 1]) + (if Benign(l) then [] else [l])
  }

  /** The filter keeps order: it distributes over concatenation. */
  lemma {:induction false} KeptAppend(xs: seq<string>, ys: seq<string>)
    ensures Kept(xs + ys) == Kept(xs) + Kept(ys)
    decreases |ys|
  {
    if |ys| == 0 {
      assert xs + ys == xs;
    } else {
      var ys' := ys[..|ys| - 1];
      assert (xs + ys)[..|xs + ys| - 1] == xs + ys';
      KeptAppend(xs, ys');
    }
  }

  /** Exactly the non-benign lines are kept. */
  lemma {:induction false} KeptExactly(lines: seq<string>)
    ensures forall l :: l in Kept(lines) <==> l in lines && !Benign(l)
    decreases |lines|
  {
    if |lines| > 0 {
      var pre := lines[..|lines| - 1];
      KeptExactly(pre);
      assert lines == pre + [lines[|lines| - 1]];
    }
  }

  /** What is left of puppet's error output once the benign lines are gone. */
  function Remaining(errors: string): string {
    Join(Kept(SplitLines(errors)), "\n")
  }

  lemma JoinEmpty(xs: seq<string>)
    ensures Join(xs, "\n") == "" <==> |xs| == 0 || (|xs| == 1 && xs[0] == "")
  {
  }

  /** The node fails exactly when a non-empty line, or more than one line,
      survives the filter: output made only of benign warnings passes. */
  lemma RemainingFails(errors: string)
    ensures Remaining(errors) != "" <==>
            |Kept(SplitLines(errors))| >= 2 || (|Kept(SplitLines(errors))| == 1 && Kept(SplitLines(errors))[0] != "")
    ensures (forall k :: 0 <= k < |SplitLines(errors)| ==> Benign(SplitLines(errors)[k])) ==> Remaining(errors) == ""
  {
    JoinEmpty(Kept(SplitLines(errors)));
    KeptExactly(SplitLines(errors));
  }

  function PuppetFailure(node: string, errors: string): string {
    "error applying puppet configuration to " + node + ":\n" + errors
  }

  /** The filter loop of `deploy_to_node` and the exception it leads to. */
  method CheckPuppetErrors(node: string, errors: string) returns (err: Option<PyError>)
    ensures Remaining(errors) == "" ==> err == None
    ensures Remaining(errors) != "" ==> err == Some(Raised(PuppetFailure(node, Remaining(errors))))
  {
    var lines := SplitLines(errors);
    var actual: seq<string> := [];
    var i := 0;
    while i < |lines|
      invariant 0 <= i <= |lines|
      invariant actual == Kept(lines[..i])
    {
      assert lines[..i + 1][..i] == lines[..i];
      var e := lines[i];
      if !Benign(e) {
        actual := actual + [e];
      }
      i := i + 1;
    }
    assert lines[..|lines|] == lines;
    var joined := Join(actual, "\n");
    if joined != "" {
      return Some(Raised(PuppetFailure(node, joined)));
    }
    return None;
  }
}

/** The bash array literals `generate_command_for_node` and `deploy_to_all`
    splice into the generated shell scripts (cloudstack/big_patch.py):
    `(` followed by `"v" ` for every element, then `)`. */
module CloudStackArrays {
  import opened Py
  import opened PyStrings
  import opened CloudStackNodes

  /** One element as the source writes it: `'"%s" ' % v`. */
  function Element(x: string): string {
    "\"" + x + "\" "
  }

  /** The elements one after the other, folded from the right end like the
      `+=` loops that build them. */
  function Elements(xs: seq<string>): string
    decreases |xs|
  {
    if |xs| == 0 then "" else Elements(xs[..|xs| - 1]) + Element(xs[|xs| - 1])
  }

  /** The bash array literal of `xs`: it opens with `(` and closes with `)`. */
  function BashArray(xs: seq<string>): (r: string)
    ensures |r| >= 2 && r[0] == '(' && r[|r| - 1] == ')'
  {
    "(" + Elements(xs) + ")"
  }

  predicate QuoteFree(xs: seq<string>) {
    forall k :: 0 <= k < |xs| ==> '"' !in xs[k]
  }

  // ---------------------------------------------------------------------
  // Reading an array literal back

  /** The first index at or after `from` that holds a double quote, or `|s|`. */
  function QuoteIndex(s: string, from: nat): (j: nat)
    requires from <= |s|
    ensures from <= j <= |s|
    ensures j < |s| ==> s[j] == '"'
    decreases |s| - from
  {
    if from == |s| then |s| else if s[from] == '"' then from else QuoteIndex(s, from + 1)
  }

  /** Reads `"x1" "x2" ... ` back into its elements. */
  function ParseElements(s: string): Option<seq<string>>
    decreases |s|
  {
    if |s| == 0 then Some([])
    else if s[0] != '"' then None
    else
      var j := QuoteIndex(s, 1);
      if j + 1 < |s| && s[j + 1] == ' ' then
        match ParseElements(s[j + 2..])
        case None => None
        case Some(rest) => Some([s[1..j]] + rest)
      else None
  }

  /** Reads a bash array literal back into its elements. */
  function ParseBashArray(s: string): Option<seq<string>> {
    if |s| >= 2 && s[0] == '(' && s[|s| - 1] == ')' then ParseElements(s[1..|s| - 1]) else None
  }

  lemma {:induction false} ElementsCons(x: string, xs: seq<string>)
    ensures Elements([x] + xs) == Element(x) + Elements(xs)
    decreases |xs|
  {
    if |xs| == 0 {
      assert ([x] + xs)[..0] == [];
    } else {
      var front := xs[..|xs| - 1];
      assert ([x] + xs)[..|xs|] == [x] + front;
      ElementsCons(x, front);
    }
  }

  lemma {:induction false} QuoteIndexAfter(x: string, t: string, from: nat)
    requires '"' !in x
    requires 1 <= from <= |x| + 1
    ensures QuoteIndex("\"" + x + "\" " + t, from) == |x| + 1
    decreases |x| + 1 - from
  {
    var s := "\"" + x + "\" " + t;
    if from <= |x| {
      assert s[from] == x[from - 1];
      QuoteIndexAfter(x, t, from + 1);
    }
  }

  lemma {:induction false} ParseElementsRoundTrip(xs: seq<string>)
    requires QuoteFree(xs)
    ensures ParseElements(Elements(xs)) == Some(xs)
    decreases |xs|
  {
    if |xs| == 0 {
    } else {
      var x, rest := xs[0], xs[1..];
      assert xs == [x] + rest;
      ElementsCons(x, rest);
      var s := Element(x) + Elements(rest);
      assert s == "\"" + x + "\" " + Elements(rest);
      QuoteIndexAfter(x, Elements(rest), 1);
      assert s[|x| + 3..] == Elements(rest);
      assert s[1..|x| + 1] == x;
      ParseElementsRoundTrip(rest);
    }
  }

  /** An array of quote-free elements reads back as exactly its elements. */
  lemma BashArrayRoundTrip(xs: seq<string>)
    requires QuoteFree(xs)
    ensures ParseBashArray(BashArray(xs)) == Some(xs)
  {
    var s := BashArray(xs);
    assert s[1..|s| - 1] == Elements(xs);
    ParseElementsRoundTrip(xs);
  }

  /** Different quote-free element lists give different literals. */
  lemma BashArrayInjective(xs: seq<string>, ys: seq<string>)
    requires QuoteFree(xs) && QuoteFree(ys)
    requires BashArray(xs) == BashArray(ys)
    ensures xs == ys
  {
    BashArrayRoundTrip(xs);
    BashArrayRoundTrip(ys);
  }

  // ---------------------------------------------------------------------
  // The `bond_intfs` array (cloudstack/big_patch.py:1797-1800)

  function Texts(vs: seq<Value>): (r: seq<string>)
    ensures |r| == |vs|
    ensures forall k :: 0 <= k < |vs| ==> r[k] == Text(vs[k])
  {
    seq(|vs|, k requires 0 <= k < |vs| => Text(vs[k]))
  }

  /** `bond_intfs`: one element per bond member, in list order. */
  method BondIntfsArray(bondInterfaces: Value) returns (r: Result<string>)
    ensures r.Ok? <==> Iterate(bondInterfaces).Ok?
    ensures r.Ok? ==> r.value == BashArray(Texts(Iterate(bondInterfaces).value))
    ensures r.Err? ==> r.error == Iterate(bondInterfaces).error
  {
    var it := Iterate(bondInterfaces);
    if it.Err? {
      return Err(it.error);
    }
    var items := it.value;
    ghost var texts := Texts(items);
    var acc := "(";
    var i := 0;
    while i < |items|
      invariant 0 <= i <= |items|
      invariant acc == "(" + Elements(texts[..i])
    {
      assert texts[..i + 1] == texts[..i] + [Text(items[i])];
      OpenedAppend(texts[..i], Text(items[i]));
      acc := acc + Element(Text(items[i]));
      i := i + 1;
    }
    assert texts[..|items|] == texts;
    acc := acc + ")";
    return Ok(acc);
  }

  // ---------------------------------------------------------------------
  // The six bridge arrays (cloudstack/big_patch.py:1802-1835)

  /** What one bridge entry contributes to each of the six arrays. */
  datatype BridgeRow = BridgeRow(name: string, vlan: string, inet: string,
                                 address: string, netmask: string, gateway: string)

  /** `'%s' % get_raw_value(bridge, key)`. */
  function FieldText(bridge: Value, key: string): (r: Result<string>)
    ensures r.Ok? <==> RawValue(bridge, key).Ok?
    ensures r.Ok? ==> r.value == Text(RawValue(bridge, key).value)
  {
    var v :- RawValue(bridge, key);
    Ok(Text(v))
  }

  /** The vlan tag, with a falsy tag written as the empty string. */
  function VlanText(bridge: Value): (r: Result<string>)
    ensures r.Ok? <==> RawValue(bridge, "vlan").Ok?
    ensures r.Ok? && !Truthy(RawValue(bridge, "vlan").value) ==> r.value == ""
    ensures r.Ok? && Truthy(RawValue(bridge, "vlan").value) ==> r.value == Text(RawValue(bridge, "vlan").value)
  {
    var v :- RawValue(bridge, "vlan");
    Ok(if Truthy(v) then Text(v) else "")
  }

  /** An optional key (`address`, `netmask`, `gateway`): `""` when the bridge lacks it. */
  function OptionalText(bridge: Value, key: string): (r: Result<string>)
    ensures bridge.Dict? && key !in bridge.fields ==> r == Ok("")
    ensures bridge.Dict? && key in bridge.fields ==> r == FieldText(bridge, key)
    ensures !bridge.Dict? ==> r.Err?
  {
    if !bridge.Dict? then Err(TypeError)
    else if key in bridge.fields then FieldText(bridge, key)
    else Ok("")
  }

  /** One bridge entry, its keys read in the order the source reads them. */
  function ReadBridgeRow(bridge: Value): Result<BridgeRow> {
    var name :- FieldText(bridge, "name");
    var vlan :- VlanText(bridge);
    var inet :- FieldText(bridge, "inet");
    var address :- OptionalText(bridge, "address");
    var netmask :- OptionalText(bridge, "netmask");
    var gateway :- OptionalText(bridge, "gateway");
    Ok(BridgeRow(name, vlan, inet, address, netmask, gateway))
  }

  /** The bridge entries read in order; the first failure wins. */
  function ReadBridgeRows(items: seq<Value>): (r: Result<seq<BridgeRow>>)
    ensures r.Ok? ==> |r.value| == |items|
    decreases |items|
  {
    if |items| == 0 then Ok([])
    else
      var front :- ReadBridgeRows(items[..|items| - 1]);
      var last :- ReadBridgeRow(items[|items| - 1]);
      Ok(front + [last])
  }

  lemma {:induction false} ReadBridgeRowsErrPersists(items: seq<Value>, i: nat)
    requires i <= |items| && ReadBridgeRows(items[..i]).Err?
    ensures ReadBridgeRows(items) == Err(ReadBridgeRows(items[..i]).error)
    decreases |items| - i
  {
    if i < |items| {
      var front := items[..|items| - 1];
      assert front[..i] == items[..i];
      ReadBridgeRowsErrPersists(front, i);
    } else {
      assert items[..i] == items;
    }
  }

  /** `if node.bridges: for bridge in node.bridges: ...`. */
  function BridgeRows(bridges: Value): Result<seq<BridgeRow>> {
    if !Truthy(bridges) then Ok([])
    else
      var items :- Iterate(bridges);
      ReadBridgeRows(items)
  }

  function Names(rows: seq<BridgeRow>): (r: seq<string>)
    ensures |r| == |rows| && forall k :: 0 <= k < |rows| ==> r[k] == rows[k].name
  {
    seq(|rows|, k requires 0 <= k < |rows| => rows[k].name)
  }

  function Vlans(rows: seq<BridgeRow>): (r: seq<string>)
    ensures |r| == |rows| && forall k :: 0 <= k < |rows| ==> r[k] == rows[k].vlan
  {
    seq(|rows|, k requires 0 <= k < |rows| => rows[k].vlan)
  }

  function Inets(rows: seq<BridgeRow>): (r: seq<string>)
    ensures |r| == |rows| && forall k :: 0 <= k < |rows| ==> r[k] == rows[k].inet
  {
    seq(|rows|, k requires 0 <= k < |rows| => rows[k].inet)
  }

  function Addresses(rows: seq<BridgeRow>): (r: seq<string>)
    ensures |r| == |rows| && forall k :: 0 <= k < |rows| ==> r[k] == rows[k].address
  {
    seq(|rows|, k requires 0 <= k < |rows| => rows[k].address)
  }

  function Netmasks(rows: seq<BridgeRow>): (r: seq<string>)
    ensures |r| == |rows| && forall k :: 0 <= k < |rows| ==> r[k] == rows[k].netmask
  {
    seq(|rows|, k requires 0 <= k < |rows| => rows[k].netmask)
  }

  function Gateways(rows: seq<BridgeRow>): (r: seq<string>)
    ensures |r| == |rows| && forall k :: 0 <= k < |rows| ==> r[k] == rows[k].gateway
  {
    seq(|rows|, k requires 0 <= k < |rows| => rows[k].gateway)
  }

  /** `network_name_labels`, `vlan_tags`, `bond_inets`, `bond_ips`,
      `bond_masks` and `bond_gateways`. */
  datatype BridgeArrays = BridgeArrays(names: string, vlans: string, inets: string,
                                       ips: string, masks: string, gateways: string)

  /** The arrays of a list of rows, one column each. */
  function ArraysOf(rows: seq<BridgeRow>): BridgeArrays {
    BridgeArrays(BashArray(Names(rows)), BashArray(Vlans(rows)), BashArray(Inets(rows)),
                 BashArray(Addresses(rows)), BashArray(Netmasks(rows)), BashArray(Gateways(rows)))
  }

  /** Every field of every row is free of double quotes. */
  predicate RowsQuoteFree(rows: seq<BridgeRow>) {
    QuoteFree(Names(rows)) && QuoteFree(Vlans(rows)) && QuoteFree(Inets(rows)) &&
    QuoteFree(Addresses(rows)) && QuoteFree(Netmasks(rows)) && QuoteFree(Gateways(rows))
  }

  /** The six arrays built from one bridge list hold the same number of
      elements, the k-th element of each coming from the k-th bridge. */
  lemma BridgeArraysAligned(rows: seq<BridgeRow>)
    requires RowsQuoteFree(rows)
    ensures ParseBashArray(ArraysOf(rows).names) == Some(Names(rows))
    ensures ParseBashArray(ArraysOf(rows).vlans) == Some(Vlans(rows))
    ensures ParseBashArray(ArraysOf(rows).inets) == Some(Inets(rows))
    ensures ParseBashArray(ArraysOf(rows).ips) == Some(Addresses(rows))
    ensures ParseBashArray(ArraysOf(rows).masks) == Some(Netmasks(rows))
    ensures ParseBashArray(ArraysOf(rows).gateways) == Some(Gateways(rows))
  {
    BashArrayRoundTrip(Names(rows));
    BashArrayRoundTrip(Vlans(rows));
    BashArrayRoundTrip(Inets(rows));
    BashArrayRoundTrip(Addresses(rows));
    BashArrayRoundTrip(Netmasks(rows));
    BashArrayRoundTrip(Gateways(rows));
  }

  lemma ElementsAppend(xs: seq<string>, x: string)
    ensures Elements(xs + [x]) == Elements(xs) + Element(x)
  {
    assert (xs + [x])[..|xs|] == xs;
  }

  /** The six arrays of `rows` before their closing parenthesis. */
  function OpenArrays(rows: seq<BridgeRow>): BridgeArrays {
    BridgeArrays("(" + Elements(Names(rows)), "(" + Elements(Vlans(rows)), "(" + Elements(Inets(rows)),
                 "(" + Elements(Addresses(rows)), "(" + Elements(Netmasks(rows)), "(" + Elements(Gateways(rows)))
  }

  /** An opened array grows by one element. */
  lemma OpenedAppend(xs: seq<string>, x: string)
    ensures "(" + Elements(xs + [x]) == "(" + Elements(xs) + Element(x)
  {
    ElementsAppend(xs, x);
  }

  /** The six arrays, each grown by the matching field of `b`. */
  function GrowArrays(o: BridgeArrays, b: BridgeRow): BridgeArrays {
    BridgeArrays(o.names + Element(b.name), o.vlans + Element(b.vlan), o.inets + Element(b.inet),
                 o.ips + Element(b.address), o.masks + Element(b.netmask), o.gateways + Element(b.gateway))
  }

  /** The six arrays, each closed by `)`. */
  function CloseArrays(o: BridgeArrays): BridgeArrays {
    BridgeArrays(o.names + ")", o.vlans + ")", o.inets + ")", o.ips + ")", o.masks + ")", o.gateways + ")")
  }

  lemma OpenArraysAppend(rows: seq<BridgeRow>, b: BridgeRow)
    ensures OpenArrays(rows + [b]) == GrowArrays(OpenArrays(rows), b)
  {
    var rows' := rows + [b];
    assert "(" + Elements(Names(rows')) == "(" + Elements(Names(rows)) + Element(b.name) by {
      assert Names(rows') == Names(rows) + [b.name];
      OpenedAppend(Names(rows), b.name);
    }
    assert "(" + Elements(Vlans(rows')) == "(" + Elements(Vlans(rows)) + Element(b.vlan) by {
      assert Vlans(rows') == Vlans(rows) + [b.vlan];
      OpenedAppend(Vlans(rows), b.vlan);
    }
    assert "(" + Elements(Inets(rows')) == "(" + Elements(Inets(rows)) + Element(b.inet) by {
      assert Inets(rows') == Inets(rows) + [b.inet];
      OpenedAppend(Inets(rows), b.inet);
    }
    assert "(" + Elements(Addresses(rows')) == "(" + Elements(Addresses(rows)) + Element(b.address) by {
      assert Addresses(rows') == Addresses(rows) + [b.address];
      OpenedAppend(Addresses(rows), b.address);
    }
    assert "(" + Elements(Netmasks(rows')) == "(" + Elements(Netmasks(rows)) + Element(b.netmask) by {
      assert Netmasks(rows') == Netmasks(rows) + [b.netmask];
      OpenedAppend(Netmasks(rows), b.netmask);
    }
    assert "(" + Elements(Gateways(rows')) == "(" + Elements(Gateways(rows)) + Element(b.gateway) by {
      assert Gateways(rows') == Gateways(rows) + [b.gateway];
      OpenedAppend(Gateways(rows), b.gateway);
    }
  }

  lemma CloseOpenArrays(rows: seq<BridgeRow>)
    ensures CloseArrays(OpenArrays(rows)) == ArraysOf(rows)
  {
  }

  lemma ReadBridgeRowsSnoc(items: seq<Value>, i: nat, rows: seq<BridgeRow>)
    requires i < |items| && ReadBridgeRows(items[..i]) == Ok(rows)
    ensures ReadBridgeRow(items[i]).Err? ==> ReadBridgeRows(items[..i + 1]) == Err(ReadBridgeRow(items[i]).error)
    ensures ReadBridgeRow(items[i]).Ok? ==> ReadBridgeRows(items[..i + 1]) == Ok(rows + [ReadBridgeRow(items[i]).value])
  {
    assert items[..i + 1][..i] == items[..i];
  }

  /** The loop over the bridge entries, stopping at the first that raises. */
  method ReadAllBridges(items: seq<Value>) returns (r: Result<BridgeArrays>)
    ensures r.Ok? <==> ReadBridgeRows(items).Ok?
    ensures r.Ok? ==> r.value == ArraysOf(ReadBridgeRows(items).value)
    ensures r.Err? ==> r.error == ReadBridgeRows(items).error
  {
    var arrays := BridgeArrays("(", "(", "(", "(", "(", "(");
    ghost var rows: seq<BridgeRow> := [];
    var i := 0;
    while i < |items|
      invariant 0 <= i <= |items|
      invariant ReadBridgeRows(items[..i]) == Ok(rows)
      invariant OpenArrays(rows) == arrays
    {
      var row := ReadBridgeRow(items[i]);
      ReadBridgeRowsSnoc(items, i, rows);
      if row.Err? {
        ReadBridgeRowsErrPersists(items, i + 1);
        return Err(row.error);
      }
      OpenArraysAppend(rows, row.value);
      arrays := GrowArrays(arrays, row.value);
      rows := rows + [row.value];
      i := i + 1;
    }
    assert items[..i] == items;
    CloseOpenArrays(rows);
    return Ok(CloseArrays(arrays));
  }

  /** The `+=` loop over `node.bridges` that grows the six arrays side by side. */
  method BuildBridgeArrays(bridges: Value) returns (r: Result<BridgeArrays>)
    ensures r.Ok? <==> BridgeRows(bridges).Ok?
    ensures r.Ok? ==> r.value == ArraysOf(BridgeRows(bridges).value)
    ensures r.Err? ==> r.error == BridgeRows(bridges).error
  {
    var items: seq<Value> := [];
    if Truthy(bridges) {
      var it := Iterate(bridges);
      if it.Err? {
        return Err(it.error);
      }
      items := it.value;
    }
    assert BridgeRows(bridges) == ReadBridgeRows(items);
    r := ReadAllBridges(items);
  }
}

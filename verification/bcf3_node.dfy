/** The node record of the BCF 3 deployer (bcf3/lib/node.py): the fields a
    node takes from its configuration and from the environment, the IVS
    package and version derived from them, the operating-system check,
    and the command-line fragments the deployer renders from a node. */
module Bcf3Node {
  import opened Py
  import opened PyStrings

  /** The values read from the `constants` module, which is not part of
      this model; `t5` and `t6` are the two deploy modes. */
  datatype Constants = Constants(
    dstDir: string, logFile: string,
    rpmOsSet: set<string>, debOsSet: set<string>,
    centos: string, ubuntu: string,
    centosVersions: set<string>, ubuntuVersions: set<string>,
    t5: Value, t6: Value,
    toBeCleanedBrNames: seq<string>)

  /** The environment's `ivs_pkg_map`, one package name per entry. */
  datatype IvsPackageMap = IvsPackageMap(rpm: string, debugRpm: string, deb: string, debugDeb: string)

  /** The environment values every node copies. */
  datatype Env = Env(
    bcfControllers: seq<string>, bcfControllerIps: Value,
    bcfControllerUser: Value, bcfControllerPasswd: Value, bcfMaster: Value,
    physnet: Value, lowerVlan: Value, upperVlan: Value,
    setupNodeIp: Value, setupNodeDir: Value, selinuxMode: Value, fuelClusterId: Value,
    ivsPkgMap: IvsPackageMap)

  /** A bridge of the node: its key, address and name. */
  datatype Bridge = Bridge(brKey: string, brIp: string, brName: string)

  /** A node's configuration: a dict of YAML values, plus the bridge
      objects under `bridges` when there are any. */
  datatype NodeConfig = NodeConfig(fields: map<string, Value>, bridges: Option<seq<Bridge>>)

  /** The fields `__init__` reads from the configuration, after `lower()`
      and the version cut. */
  datatype NodeFields = NodeFields(
    hostname: Value, role: string, skip: Value, deployMode: Value,
    os: string, osVersion: string, bsnstacklibVersion: Value,
    user: Value, passwd: Value, uplinkInterfaces: Value,
    installIvs: Value, installBsnstacklib: Value, installAll: Value,
    bridges: Option<seq<Bridge>>, brBond: Value)

  // ---------------------------------------------------------------------
  // Field derivations

  /** `str(v).split(".")[0]`: the text of `v` before its first dot. */
  function MajorVersion(v: Value): (r: string)
    ensures '.' !in r
    ensures StartsWith(Text(v), r)
    ensures |r| < |Text(v)| ==> Text(v)[|r|] == '.'
  {
    MajorVersionPrefix(Text(v));
    Split(Text(v), '.')[0]
  }

  /** The first part of a split is the text before the first separator. */
  lemma {:induction false} MajorVersionPrefix(s: string)
    ensures var p := Split(s, '.')[0];
            '.' !in p && StartsWith(s, p) && (|p| < |s| ==> s[|p|] == '.')
    decreases |s|
  {
    SplitPartsAreSeparatorFree(s, '.');
    if |s| > 0 && s[0] != '.' {
      MajorVersionPrefix(s[1..]);
      var p' := Split(s[1..], '.')[0];
      assert Split(s, '.')[0] == [s[0]] + p';
      assert s[..|p'| + 1] == [s[0]] + s[1..][..|p'|];
    }
  }

  /** `s.lower()` of a configuration value that must be a string. */
  function LowerText(v: Value): (r: Result<string>)
    ensures v.Str? <==> r.Ok?
    ensures r.Ok? ==> r.value == Lower(v.s)
  {
    if v.Str? then Ok(Lower(v.s)) else Err(TypeError)
  }

  /** The keys `__init__` subscripts. */
  const RequiredKeys: set<string> := {"hostname", "role", "skip", "deploy_mode", "os", "os_version",
    "bsnstacklib_version", "user", "passwd", "uplink_interfaces", "install_ivs",
    "install_bsnstacklib", "install_all"}

  /** The configuration reads of `__init__`, in the order the source makes
      them: a missing key raises KeyError, a role or os that is not a string
      cannot be lower-cased. */
  function ReadNode(config: NodeConfig): (r: Result<NodeFields>)
    ensures r.Ok? ==> "role" in config.fields && config.fields["role"].Str? && r.value.role == Lower(config.fields["role"].s)
    ensures r.Ok? ==> "os" in config.fields && config.fields["os"].Str? && r.value.os == Lower(config.fields["os"].s)
    ensures r.Ok? ==> "os_version" in config.fields && r.value.osVersion == MajorVersion(config.fields["os_version"])
    ensures r.Ok? ==> r.value.bridges == config.bridges
    ensures r.Ok? <==> RequiredKeys <= config.fields.Keys
                       && config.fields["role"].Str? && config.fields["os"].Str?
    ensures r.Ok? ==> r.value.hostname == config.fields["hostname"] && r.value.skip == config.fields["skip"]
    ensures r.Ok? ==> r.value.deployMode == config.fields["deploy_mode"]
    ensures r.Ok? ==> r.value.bsnstacklibVersion == config.fields["bsnstacklib_version"]
    ensures r.Ok? ==> r.value.user == config.fields["user"] && r.value.passwd == config.fields["passwd"]
    ensures r.Ok? ==> r.value.uplinkInterfaces == config.fields["uplink_interfaces"]
    ensures r.Ok? ==> r.value.installIvs == config.fields["install_ivs"]
    ensures r.Ok? ==> r.value.installBsnstacklib == config.fields["install_bsnstacklib"]
    ensures r.Ok? ==> r.value.installAll == config.fields["install_all"]
    ensures r.Ok? && "br_bond" in config.fields ==> r.value.brBond == config.fields["br_bond"]
    ensures r.Ok? && "br_bond" !in config.fields ==> r.value.brBond == Null
    ensures "hostname" !in config.fields ==> r == Err(KeyError("hostname"))
  {
    var d := Dict(config.fields);
    var hostname :- Subscript(d, "hostname");
    var role :- Subscript(d, "role");
    var role' :- LowerText(role);
    var skip :- Subscript(d, "skip");
    var deployMode :- Subscript(d, "deploy_mode");
    var os :- Subscript(d, "os");
    var os' :- LowerText(os);
    var osVersion :- Subscript(d, "os_version");
    var bsnstacklibVersion :- Subscript(d, "bsnstacklib_version");
    var user :- Subscript(d, "user");
    var passwd :- Subscript(d, "passwd");
    var uplinks :- Subscript(d, "uplink_interfaces");
    var installIvs :- Subscript(d, "install_ivs");
    var installBsnstacklib :- Subscript(d, "install_bsnstacklib");
    var installAll :- Subscript(d, "install_all");
    var brBond := if "br_bond" in config.fields then config.fields["br_bond"] else Null;
    Ok(NodeFields(hostname, role', skip, deployMode, os', MajorVersion(osVersion), bsnstacklibVersion,
                  user, passwd, uplinks, installIvs, installBsnstacklib, installAll, config.bridges, brBond))
  }

  /** The IVS package and its debug package for an operating system:
      the RPM pair for an RPM system, else the DEB pair for a DEB system,
      else none. */
  function IvsPackages(os: string, pkgs: IvsPackageMap, c: Constants): (r: (Option<string>, Option<string>))
    ensures os in c.rpmOsSet ==> r == (Some(pkgs.rpm), Some(pkgs.debugRpm))
    ensures os !in c.rpmOsSet && os in c.debOsSet ==> r == (Some(pkgs.deb), Some(pkgs.debugDeb))
    ensures os !in c.rpmOsSet && os !in c.debOsSet ==> r == (None, None)
  {
    if os in c.rpmOsSet then (Some(pkgs.rpm), Some(pkgs.debugRpm))
    else if os in c.debOsSet then (Some(pkgs.deb), Some(pkgs.debugDeb))
    else (None, None)
  }

  /** A CentOS or Ubuntu release outside the supported versions. */
  predicate Unsupported(os: string, osVersion: string, c: Constants) {
    (os == c.centos && osVersion !in c.centosVersions)
    || (os == c.ubuntu && osVersion !in c.ubuntuVersions)
  }

  function UnsupportedMessage(os: string, osVersion: string): string {
    os + " " + osVersion + " is not supported"
  }

  /** The package name cut at every `-` and then at every `_`, in order
      (folded from the right end, as the loop extends). */
  function Tokens(subs: seq<string>): (r: seq<string>)
    decreases |subs|
  {
    if |subs| == 0 then [] else Tokens(subs[..|subs| - 1]) + Split(subs[|subs| - 1], '_')
  }

  /** No token of a package name holds `-` or `_`. */
  lemma {:induction false} TokensSeparatorFree(pkg: string)
    ensures forall k :: 0 <= k < |Tokens(Split(pkg, '-'))| ==>
              '-' !in Tokens(Split(pkg, '-'))[k] && '_' !in Tokens(Split(pkg, '-'))[k]
  {
    SplitPartsAreSeparatorFree(pkg, '-');
    TokensFree(Split(pkg, '-'));
  }

  /** Tokens of dash-free parts hold neither separator. */
  lemma {:induction false} TokensFree(subs: seq<string>)
    requires forall k :: 0 <= k < |subs| ==> '-' !in subs[k]
    ensures forall k :: 0 <= k < |Tokens(subs)| ==> '-' !in Tokens(subs)[k] && '_' !in Tokens(subs)[k]
    decreases |subs|
  {
    if |subs| > 0 {
      var last := subs[|subs| - 1];
      TokensFree(subs[..|subs| - 1]);
      SplitPartsAreSeparatorFree(last, '_');
      PartsKeepAbsence(last, '_', '-');
    }
  }

  /** Splitting on one character keeps another character absent. */
  lemma {:induction false} PartsKeepAbsence(s: string, c: char, d: char)
    requires d !in s
    ensures forall k :: 0 <= k < |Split(s, c)| ==> d !in Split(s, c)[k]
    decreases |s|
  {
    if |s| > 0 {
      PartsKeepAbsence(s[1..], c, d);
    }
  }

  /** The first token that reads `ivs` in any case. */
  function FirstIvs(tokens: seq<string>): (r: Option<nat>)
    ensures r.Some? ==> r.value < |tokens| && Lower(tokens[r.value]) == "ivs"
    ensures r.Some? ==> forall k :: 0 <= k < r.value ==> Lower(tokens[k]) != "ivs"
    ensures r.None? ==> forall k :: 0 <= k < |tokens| ==> Lower(tokens[k]) != "ivs"
    decreases |tokens|
  {
    if |tokens| == 0 then None
    else if Lower(tokens[0]) == "ivs" then Some(0)
    else
      match FirstIvs(tokens[1..])
      case None => None
      case Some(i) => Some(i + 1)
  }

  /** The IVS version in a token list: the token after the first `ivs`;
      an `ivs` that is the last token makes `temp[i+1]` raise. */
  function IvsVersionOf(tokens: seq<string>): (r: Result<Option<string>>)
    ensures FirstIvs(tokens).None? <==> r == Ok(None)
    ensures r.Err? <==> FirstIvs(tokens) == Some(|tokens| - 1)
    ensures r.Ok? && r.value.Some? ==> exists k :: 0 <= k < |tokens| - 1 && FirstIvs(tokens) == Some(k) && r.value.value == tokens[k + 1]
  {
    match FirstIvs(tokens)
    case None => Ok(None)
    case Some(k) => if k + 1 < |tokens| then Ok(Some(tokens[k + 1])) else Err(IndexError)
  }

  /** The version of a package, when there is one: no package, or an empty
      name, has none; a version found is one whole token of the name. */
  function PackageVersion(pkg: Option<string>): (r: Result<Option<string>>)
    ensures pkg.None? || pkg.value == "" ==> r == Ok(None)
    ensures r.Ok? && r.value.Some? ==> '-' !in r.value.value && '_' !in r.value.value
  {
    if pkg.None? || pkg.value == "" then Ok(None)
    else
      TokensSeparatorFree(pkg.value);
      IvsVersionOf(Tokens(Split(pkg.value, '-')))
  }

  /** The loop that extends `temp` with the `_`-parts of every `-`-part. */
  method PackageTokens(pkg: string) returns (temp: seq<string>)
    ensures temp == Tokens(Split(pkg, '-'))
  {
    var subs := Split(pkg, '-');
    temp := [];
    var i := 0;
    while i < |subs|
      invariant 0 <= i <= |subs|
      invariant temp == Tokens(subs[..i])
    {
      assert subs[..i + 1][..i] == subs[..i];
      temp := temp + Split(subs[i], '_');
      i := i + 1;
    }
    assert subs[..|subs|] == subs;
  }

  lemma FirstIvsAt(tokens: seq<string>, i: nat)
    requires i < |tokens| && Lower(tokens[i]) == "ivs"
    requires forall k :: 0 <= k < i ==> Lower(tokens[k]) != "ivs"
    ensures FirstIvs(tokens) == Some(i)
  {
  }

  // ---------------------------------------------------------------------
  // Rendered fragments

  /** `''.join` of `prefix` followed by each item, in order. */
  function Prefixed(prefix: string, xs: seq<string>): string
    decreases |xs|
  {
    if |xs| == 0 then "" else prefix + xs[0] + Prefixed(prefix, xs[1..])
  }

  lemma {:induction false} PrefixedSnoc(prefix: string, xs: seq<string>, x: string)
    ensures Prefixed(prefix, xs + [x]) == Prefixed(prefix, xs) + prefix + x
    decreases |xs|
  {
    if |xs| == 0 {
      assert xs + [x] == [x];
      assert [x][1..] == [];
    } else {
      assert (xs + [x])[1..] == xs[1..] + [x];
      PrefixedSnoc(prefix, xs[1..], x);
    }
  }

  /** `s.split(c)` of a string that starts with `c`. */
  lemma SplitLead(c: char, t: string)
    ensures Split([c] + t, c) == [""] + Split(t, c)
  {
    assert "" + [c] + t == [c] + t;
    SplitAfterPart("", c, t);
  }

  /** The flag word, then the item, for every item. */
  function PairWords(flag: string, xs: seq<string>): seq<string>
    decreases |xs|
  {
    if |xs| == 0 then [] else [flag, xs[0]] + PairWords(flag, xs[1..])
  }

  /** The flag word glued to each item. */
  function GluedWords(flag: string, xs: seq<string>): seq<string>
    decreases |xs|
  {
    if |xs| == 0 then [] else [flag + xs[0]] + GluedWords(flag, xs[1..])
  }

  /** Word splitting of ` <flag> <item>` repeated. */
  lemma {:induction false} PairFlagsSplit(p: string, flag: string, xs: seq<string>)
    requires p == [' '] + flag + [' '] && ' ' !in flag
    requires forall k :: 0 <= k < |xs| ==> ' ' !in xs[k]
    ensures Split(Prefixed(p, xs), ' ') == [""] + PairWords(flag, xs)
    decreases |xs|
  {
    if |xs| > 0 {
      var x := xs[0];
      var q := Prefixed(p, xs[1..]);
      assert Prefixed(p, xs) == p + x + q;
      if |xs| == 1 {
        assert p + x + q == [' '] + flag + [' '] + x;
        PairLast(flag, x);
        assert PairWords(flag, xs) == [flag, x];
      } else {
        PairFlagsSplit(p, flag, xs[1..]);
        var q' := q[1..];
        assert q == [' '] + q';
        SplitLead(' ', q');
        assert Split(q', ' ') == PairWords(flag, xs[1..]) by {
          assert Split(q, ' ')[1..] == Split(q', ' ');
        }
        assert p + x + q == [' '] + flag + [' '] + x + ([' '] + q');
        PairStep(flag, x, q', PairWords(flag, xs[1..]));
      }
    }
  }

  /** The last ` <flag> <item>`. */
  lemma PairLast(flag: string, x: string)
    requires ' ' !in flag && ' ' !in x
    ensures Split([' '] + flag + [' '] + x, ' ') == [""] + [flag, x]
  {
    assert [' '] + flag + [' '] + x == [' '] + (flag + [' '] + x);
    SplitLead(' ', flag + [' '] + x);
    SplitAfterPart(flag, ' ', x);
    SplitSeparatorFree(x, ' ');
  }

  /** One ` <flag> <item>` in front of the rest. */
  lemma PairStep(flag: string, x: string, q: string, tail: seq<string>)
    requires ' ' !in flag && ' ' !in x
    requires Split(q, ' ') == tail
    ensures Split([' '] + flag + [' '] + x + ([' '] + q), ' ') == [""] + ([flag, x] + tail)
  {
    SplitAfterTwo(flag, x, ' ', q);
    SplitLead(' ', flag + [' '] + (x + [' '] + q));
    PairStepRegroup(flag, x, q);
  }

  lemma PairStepRegroup(flag: string, x: string, q: string)
    ensures [' '] + flag + [' '] + x + ([' '] + q) == [' '] + (flag + [' '] + (x + [' '] + q))
  {
  }

  /** Word splitting of ` <flag><item>` repeated. */
  lemma {:induction false} GluedFlagsSplit(p: string, flag: string, xs: seq<string>)
    requires p == [' '] + flag && ' ' !in flag
    requires forall k :: 0 <= k < |xs| ==> ' ' !in xs[k]
    ensures Split(Prefixed(p, xs), ' ') == [""] + GluedWords(flag, xs)
    decreases |xs|
  {
    if |xs| > 0 {
      var w := flag + xs[0];
      var q := Prefixed(p, xs[1..]);
      GluedFlagsSplit(p, flag, xs[1..]);
      assert ' ' !in w;
      assert Prefixed(p, xs) == p + xs[0] + q;
      assert p + xs[0] + q == [' '] + (w + q);
      SplitLead(' ', w + q);
      if |xs| == 1 {
        assert w + q == w;
        SplitSeparatorFree(w, ' ');
      } else {
        var q' := q[1..];
        assert q == [' '] + q';
        SplitLead(' ', q');
        assert w + q == w + [' '] + q';
        SplitAfterPart(w, ' ', q');
        assert Split(q, ' ') == [""] + Split(q', ' ');
        assert Split(q, ' ')[1..] == Split(q', ' ');
        assert Split(q, ' ')[1..] == GluedWords(flag, xs[1..]);
        assert Split(w + q, ' ') == [w] + GluedWords(flag, xs[1..]);
        assert GluedWords(flag, xs) == [w] + GluedWords(flag, xs[1..]);
      }
    }
  }

  lemma UplinkPrefixShape()
    ensures " -u " == [' '] + "-u" + [' '] && ' ' !in "-u"
  {
  }

  lemma InternalPortPrefixShape()
    ensures " --internal-port=" == [' '] + "--internal-port=" && ' ' !in "--internal-port="
  {
  }

  /** The shell sees one `-u <interface>` pair per uplink, in order. */
  lemma UplinkFlagsSplit(xs: seq<string>)
    requires forall k :: 0 <= k < |xs| ==> ' ' !in xs[k]
    ensures Split(Prefixed(" -u ", xs), ' ') == [""] + PairWords("-u", xs)
  {
    UplinkPrefixShape();
    PairFlagsSplit(" -u ", "-u", xs);
  }

  /** The shell sees one `--internal-port=<key>` word per bridge, in order. */
  lemma InternalPortsSplit(keys: seq<string>)
    requires forall k :: 0 <= k < |keys| ==> ' ' !in keys[k]
    ensures Split(Prefixed(" --internal-port=", keys), ' ') == [""] + GluedWords("--internal-port=", keys)
  {
    InternalPortPrefixShape();
    GluedFlagsSplit(" --internal-port=", "--internal-port=", keys);
  }

  function Quote(x: string): string {
    "\"" + x + "\""
  }

  function Quoted(xs: seq<string>): (r: seq<string>)
    ensures |r| == |xs|
    ensures forall k :: 0 <= k < |xs| ==> r[k] == Quote(xs[k])
  {
    seq(|xs|, k requires 0 <= k < |xs| => Quote(xs[k]))
  }

  /** The items, each followed by the separator except the last. */
  function Framed(xs: seq<string>, sep: string): seq<string>
    requires |xs| >= 1
    decreases |xs|
  {
    if |xs| == 1 then [xs[0]] else [xs[0], sep] + Framed(xs[1..], sep)
  }

  /** A separated list of quoted items splits at the quotes into the items
      and the separators between them: every item can be read back. */
  lemma {:induction false} QuotedJoinSplit(xs: seq<string>, sep: string)
    requires |xs| >= 1
    requires '"' !in sep
    requires forall k :: 0 <= k < |xs| ==> '"' !in xs[k]
    ensures Split(Join(Quoted(xs), sep), '"') == [""] + Framed(xs, sep) + [""]
    decreases |xs|
  {
    var a := xs[0];
    if |xs| == 1 {
      assert Join(Quoted(xs), sep) == ['"'] + a + ['"'];
      QuoteOne(a);
    } else {
      var rest := Join(Quoted(xs[1..]), sep);
      var f := Framed(xs[1..], sep);
      QuotedJoinSplit(xs[1..], sep);
      QuotedJoinCons(xs, sep);
      QuotedJoinStartsWithQuote(xs[1..], sep);
      QuoteStep(a, sep, rest, f + [""]);
      assert Framed(xs, sep) == [a, sep] + f;
      FramedRegroup(a, sep, f);
    }
  }

  lemma QuoteOne(a: string)
    requires '"' !in a
    ensures Split(['"'] + a + ['"'], '"') == [""] + [a] + [""]
  {
    assert ['"'] + a + ['"'] == ['"'] + (a + ['"'] + "");
    SplitLead('"', a + ['"'] + "");
    SplitAfterPart(a, '"', "");
  }

  lemma FramedRegroup(a: string, sep: string, f: seq<string>)
    ensures [""] + ([a, sep] + (f + [""])) == [""] + ([a, sep] + f) + [""]
  {
  }

  /** One quoted item, then the separator, then the rest of the list. */
  lemma QuotedJoinCons(xs: seq<string>, sep: string)
    requires |xs| >= 2
    ensures Join(Quoted(xs), sep) == ['"'] + (xs[0] + ['"'] + (sep + Join(Quoted(xs[1..]), sep)))
  {
    assert Quoted(xs)[0] == ['"'] + xs[0] + ['"'];
    assert Quoted(xs)[1..] == Quoted(xs[1..]);
  }

  /** Splitting at the quotes past one quoted item and one separator. */
  lemma QuoteStep(a: string, sep: string, rest: string, tail: seq<string>)
    requires '"' !in a && '"' !in sep
    requires |rest| >= 1 && rest[0] == '"'
    requires Split(rest, '"') == [""] + tail
    ensures Split(['"'] + (a + ['"'] + (sep + rest)), '"') == [""] + ([a, sep] + tail)
  {
    var t := rest[1..];
    assert rest == ['"'] + t;
    SplitLead('"', t);
    assert Split(t, '"') == tail by {
      assert Split(rest, '"')[1..] == Split(t, '"');
    }
    SplitAfterTwo(a, sep, '"', t);
    assert a + ['"'] + (sep + rest) == a + ['"'] + (sep + ['"'] + t);
    SplitLead('"', a + ['"'] + (sep + ['"'] + t));
  }

  lemma QuotedJoinStartsWithQuote(xs: seq<string>, sep: string)
    requires |xs| >= 1
    ensures |Join(Quoted(xs), sep)| >= 1 && Join(Quoted(xs), sep)[0] == '"'
  {
    assert Quoted(xs)[0] == ['"'] + xs[0] + ['"'];
  }

  /** A non-empty list of comma-free names, joined by commas, splits back to itself. */
  lemma CommaJoinSplitsBack(xs: seq<string>)
    ensures |xs| >= 1 && (forall k :: 0 <= k < |xs| ==> ',' !in xs[k]) ==> Split(Join(xs, ","), ',') == xs
  {
    if |xs| >= 1 && (forall k :: 0 <= k < |xs| ==> ',' !in xs[k]) {
      SplitJoin(xs, ',');
    }
  }

  /** The node record. */
  class Node {
    const consts: Constants
    const env: Env
    var dstDir: string
    var log: string
    var bashScriptPath: Option<string>
    var puppetScriptPath: Option<string>
    var selinuxScriptPath: Option<string>
    var ospurgeScriptPath: Option<string>
    var hostname: Value
    var role: string
    var skip: Value
    var deployMode: Value
    var os: string
    var osVersion: string
    var bsnstacklibVersion: Value
    var user: Value
    var passwd: Value
    var uplinkInterfaces: Value
    var installIvs: Value
    var installBsnstacklib: Value
    var installAll: Value
    var bridges: Option<seq<Bridge>>
    var brBond: Value
    var ivsPkg: Option<string>
    var ivsDebugPkg: Option<string>
    var ivsVersion: Option<string>
    var error: Option<string>

    /** Every field but `ivs_version` as `__init__` sets it from the
        configuration reads `f`, the environment `e` and the constants `c`:
        the copied fields, the IVS packages of the os, and an unsupported
        os/version pair forcing `skip` and setting `error`. */
    predicate InitializedFrom(f: NodeFields, e: Env, c: Constants)
      reads this
    {
      && consts == c && env == e
      && dstDir == c.dstDir && log == c.logFile
      && bashScriptPath == None && puppetScriptPath == None
      && selinuxScriptPath == None && ospurgeScriptPath == None
      && hostname == f.hostname && role == f.role && deployMode == f.deployMode
      && os == f.os && osVersion == f.osVersion && bsnstacklibVersion == f.bsnstacklibVersion
      && user == f.user && passwd == f.passwd && uplinkInterfaces == f.uplinkInterfaces
      && installIvs == f.installIvs && installBsnstacklib == f.installBsnstacklib && installAll == f.installAll
      && bridges == f.bridges && brBond == f.brBond
      && (ivsPkg, ivsDebugPkg) == IvsPackages(f.os, e.ivsPkgMap, c)
      && (Unsupported(f.os, f.osVersion, c) ==> skip == Bool(true) && error == Some(UnsupportedMessage(f.os, f.osVersion)))
      && (!Unsupported(f.os, f.osVersion, c) ==> skip == f.skip && error == None)
    }

    /** `__init__` up to the version scan: copy, pick the packages, and
        mark an unsupported release as skipped with an error. */
    constructor (f: NodeFields, e: Env, c: Constants)
      ensures InitializedFrom(f, e, c)
      ensures ivsVersion == None
    {
      consts := c;
      env := e;
      dstDir := c.dstDir;
      bashScriptPath := None;
      puppetScriptPath := None;
      selinuxScriptPath := None;
      ospurgeScriptPath := None;
      log := c.logFile;
      hostname := f.hostname;
      role := f.role;
      skip := f.skip;
      deployMode := f.deployMode;
      os := f.os;
      osVersion := f.osVersion;
      bsnstacklibVersion := f.bsnstacklibVersion;
      user := f.user;
      passwd := f.passwd;
      uplinkInterfaces := f.uplinkInterfaces;
      installIvs := f.installIvs;
      installBsnstacklib := f.installBsnstacklib;
      installAll := f.installAll;
      bridges := f.bridges;
      brBond := f.brBond;
      ivsPkg := None;
      ivsDebugPkg := None;
      ivsVersion := None;
      if f.os in c.rpmOsSet {
        ivsPkg := Some(e.ivsPkgMap.rpm);
        ivsDebugPkg := Some(e.ivsPkgMap.debugRpm);
      } else if f.os in c.debOsSet {
        ivsPkg := Some(e.ivsPkgMap.deb);
        ivsDebugPkg := Some(e.ivsPkgMap.debugDeb);
      }
      error := None;
      if (f.os == c.centos && f.osVersion !in c.centosVersions)
         || (f.os == c.ubuntu && f.osVersion !in c.ubuntuVersions) {
        skip := Bool(true);
        error := Some(UnsupportedMessage(f.os, f.osVersion));
      }
    }

    /** The end of `__init__`: the token after the first `ivs` token of the
        package name becomes the version. */
    method ScanIvsVersion() returns (err: Option<PyError>)
      requires ivsVersion == None
      modifies this`ivsVersion
      ensures PackageVersion(ivsPkg).Err? ==> err == Some(PackageVersion(ivsPkg).error) && ivsVersion == None
      ensures PackageVersion(ivsPkg).Ok? ==> err == None && ivsVersion == PackageVersion(ivsPkg).value
    {
      if ivsPkg.None? || ivsPkg.value == "" {
        return None;
      }
      var temp := PackageTokens(ivsPkg.value);
      var i := 0;
      while i < |temp|
        invariant 0 <= i <= |temp|
        invariant forall k :: 0 <= k < i ==> Lower(temp[k]) != "ivs"
      {
        if Lower(temp[i]) == "ivs" {
          FirstIvsAt(temp, i);
          if i + 1 >= |temp| {
            return Some(IndexError);
          }
          ivsVersion := Some(temp[i + 1]);
          break;
        }
        i := i + 1;
      }
      return None;
    }

    /** False exactly in deploy mode T5 once the two modes differ. */
    function IsReadyToDeploy(): (r: bool)
      reads this
      ensures consts.t5 != consts.t6 ==> (r <==> deployMode != consts.t5)
    {
      if deployMode == consts.t6 && ivsPkg != None then true
      else if deployMode != consts.t5 then true
      else false
    }

    method SetBashScriptPath(path: string)
      modifies this`bashScriptPath
      ensures bashScriptPath == Some(path)
    {
      bashScriptPath := Some(path);
    }

    method SetPuppetScriptPath(path: string)
      modifies this`puppetScriptPath
      ensures puppetScriptPath == Some(path)
    {
      puppetScriptPath := Some(path);
    }

    method SetSelinuxScriptPath(path: string)
      modifies this`selinuxScriptPath
      ensures selinuxScriptPath == Some(path)
    {
      selinuxScriptPath := Some(path);
    }

    method SetOspurgeScriptPath(path: string)
      modifies this`ospurgeScriptPath
      ensures ospurgeScriptPath == Some(path)
    {
      ospurgeScriptPath := Some(path);
    }

    /** `physnet:lower:upper`; its three `:`-fields are the three values. */
    function GetNetworkVlanRanges(): (r: string)
      ensures ':' !in Text(env.physnet) && ':' !in Text(env.lowerVlan) && ':' !in Text(env.upperVlan) ==>
                Split(r, ':') == [Text(env.physnet), Text(env.lowerVlan), Text(env.upperVlan)]
    {
      VlanRangesSplit(Text(env.physnet), Text(env.lowerVlan), Text(env.upperVlan));
      Text(env.physnet) + ":" + Text(env.lowerVlan) + ":" + Text(env.upperVlan)
    }

    /** ` -u <intf>` for every uplink, in order; items that are not strings
        make the join raise. */
    method GetUplinkIntfsForIvs() returns (r: Result<string>)
      ensures var items := Iterate(uplinkInterfaces);
              items.Err? ==> r == Err(items.error)
      ensures var items := Iterate(uplinkInterfaces);
              items.Ok? && (forall k :: 0 <= k < |items.value| ==> items.value[k].Str?) ==>
                r == Ok(Prefixed(" -u ", StrsOf(items.value)))
      ensures var items := Iterate(uplinkInterfaces);
              items.Ok? && (exists k :: 0 <= k < |items.value| && !items.value[k].Str?) ==> r == Err(TypeError)
      ensures var items := Iterate(uplinkInterfaces);
              items.Ok? && (forall k :: 0 <= k < |items.value| ==> items.value[k].Str? && ' ' !in items.value[k].s) ==>
                r.Ok? && Split(r.value, ' ') == [""] + PairWords("-u", StrsOf(items.value))
    {
      var items := Iterate(uplinkInterfaces);
      if items.Err? {
        return Err(items.error);
      }
      var xs := items.value;
      var out := "";
      var i := 0;
      while i < |xs|
        invariant 0 <= i <= |xs|
        invariant forall k :: 0 <= k < i ==> xs[k].Str?
        invariant out == Prefixed(" -u ", StrsOf(xs[..i]))
      {
        if !xs[i].Str? {
          return Err(TypeError);
        }
        StrsOfSnoc(xs, i);
        PrefixedSnoc(" -u ", StrsOf(xs[..i]), xs[i].s);
        out := out + " -u " + xs[i].s;
        i := i + 1;
      }
      assert xs[..|xs|] == xs;
      if forall k :: 0 <= k < |xs| ==> ' ' !in xs[k].s {
        UplinkFlagsSplit(StrsOf(xs));
      }
      return Ok(out);
    }

    /** ` --internal-port=<key>` for every bridge, in order. */
    method GetIvsInternalPorts() returns (r: Result<string>)
      ensures bridges.None? ==> r == Err(TypeError)
      ensures bridges.Some? ==> r == Ok(Prefixed(" --internal-port=", Keys(bridges.value)))
      ensures bridges.Some? && (forall k :: 0 <= k < |bridges.value| ==> ' ' !in bridges.value[k].brKey) ==>
                r.Ok? && Split(r.value, ' ') == [""] + GluedWords("--internal-port=", Keys(bridges.value))
    {
      if bridges.None? {
        return Err(TypeError);
      }
      var bs := bridges.value;
      var out := "";
      var i := 0;
      while i < |bs|
        invariant 0 <= i <= |bs|
        invariant out == Prefixed(" --internal-port=", Keys(bs[..i]))
      {
        assert Keys(bs[..i + 1]) == Keys(bs[..i]) + [bs[i].brKey];
        PrefixedSnoc(" --internal-port=", Keys(bs[..i]), bs[i].brKey);
        out := out + " --internal-port=" + bs[i].brKey;
        i := i + 1;
      }
      assert bs[..|bs|] == bs;
      if forall k :: 0 <= k < |bs| ==> ' ' !in bs[k].brKey {
        InternalPortsSplit(Keys(bs));
      }
      return Ok(out);
    }

    /** `"<key>,<ip>"` for every bridge, joined by commas. */
    method GetIvsInternalPortIps() returns (r: Result<string>)
      ensures bridges.None? ==> r == Err(TypeError)
      ensures bridges.Some? ==> r == Ok(Join(Quoted(PortIps(bridges.value)), ","))
      ensures bridges.Some? && |bridges.value| >= 1 &&
              (forall k :: 0 <= k < |bridges.value| ==> '"' !in bridges.value[k].brKey && '"' !in bridges.value[k].brIp) ==>
                r.Ok? && Split(r.value, '"') == [""] + Framed(PortIps(bridges.value), ",") + [""]
    {
      if bridges.None? {
        return Err(TypeError);
      }
      var bs := bridges.value;
      var portIps: seq<string> := [];
      var i := 0;
      while i < |bs|
        invariant 0 <= i <= |bs|
        invariant portIps == Quoted(PortIps(bs[..i]))
      {
        assert PortIps(bs[..i + 1]) == PortIps(bs[..i]) + [bs[i].brKey + "," + bs[i].brIp];
        portIps := portIps + [Quote(bs[i].brKey + "," + bs[i].brIp)];
        i := i + 1;
      }
      assert bs[..|bs|] == bs;
      if |bs| >= 1 && (forall k :: 0 <= k < |bs| ==> '"' !in bs[k].brKey && '"' !in bs[k].brIp) {
        PortIpsQuoteFree(bs);
        QuotedJoinSplit(PortIps(bs), ",");
      }
      return Ok(Join(portIps, ","));
    }

    /** The quoted bridge names, the quoted names to clean up and the
        quoted bond bridge, joined by spaces. */
    method GetAllOvsBrs() returns (r: Result<string>)
      ensures bridges.None? ==> r == Err(TypeError)
      ensures bridges.Some? ==>
                r == Ok(Join(Quoted(Names(bridges.value) + consts.toBeCleanedBrNames + [Text(brBond)]), " "))
      ensures var all := if bridges.Some? then Names(bridges.value) + consts.toBeCleanedBrNames + [Text(brBond)] else [];
              bridges.Some? && (forall k :: 0 <= k < |all| ==> '"' !in all[k]) ==>
                r.Ok? && Split(r.value, '"') == [""] + Framed(all, " ") + [""]
    {
      if bridges.None? {
        return Err(TypeError);
      }
      var bs := bridges.value;
      var brs: seq<string> := [];
      var i := 0;
      while i < |bs|
        invariant 0 <= i <= |bs|
        invariant brs == Quoted(Names(bs[..i]))
      {
        assert Names(bs[..i + 1]) == Names(bs[..i]) + [bs[i].brName];
        brs := brs + [Quote(bs[i].brName)];
        i := i + 1;
      }
      assert bs[..|bs|] == bs;
      var cleaned := consts.toBeCleanedBrNames;
      var j := 0;
      while j < |cleaned|
        invariant 0 <= j <= |cleaned|
        invariant brs == Quoted(Names(bs) + cleaned[..j])
      {
        assert Names(bs) + cleaned[..j + 1] == (Names(bs) + cleaned[..j]) + [cleaned[j]];
        brs := brs + [Quote(cleaned[j])];
        j := j + 1;
      }
      assert cleaned[..|cleaned|] == cleaned;
      brs := brs + [Quote(Text(brBond))];
      var all := Names(bs) + cleaned + [Text(brBond)];
      assert Quoted(all) == Quoted(Names(bs) + cleaned) + [Quote(Text(brBond))];
      if forall k :: 0 <= k < |all| ==> '"' !in all[k] {
        QuotedJoinSplit(all, " ");
      }
      return Ok(Join(brs, " "));
    }

    /** The controllers joined by commas; a comma-free list splits back. */
    function GetControllersForNeutron(): (r: string)
      ensures |env.bcfControllers| >= 1 && (forall k :: 0 <= k < |env.bcfControllers| ==> ',' !in env.bcfControllers[k]) ==>
                Split(r, ',') == env.bcfControllers
    {
      CommaJoinSplitsBack(env.bcfControllers);
      Join(env.bcfControllers, ",")
    }
  }

  /** Builds a node as `Node(node_config, env)` does, raising as it raises. */
  method NewNode(config: NodeConfig, e: Env, c: Constants) returns (r: Result<Node>)
    ensures ReadNode(config).Err? ==> r == Err(ReadNode(config).error)
    ensures ReadNode(config).Ok? ==>
              var f := ReadNode(config).value;
              var v := PackageVersion(IvsPackages(f.os, e.ivsPkgMap, c).0);
              (v.Err? ==> r == Err(v.error))
              && (v.Ok? ==> r.Ok? && fresh(r.value) && r.value.InitializedFrom(f, e, c) && r.value.ivsVersion == v.value)
  {
    var f := ReadNode(config);
    if f.Err? {
      return Err(f.error);
    }
    var n := new Node(f.value, e, c);
    var err := n.ScanIvsVersion();
    if err.Some? {
      return Err(err.value);
    }
    return Ok(n);
  }

  function StrsOf(xs: seq<Value>): seq<string>
    requires forall k :: 0 <= k < |xs| ==> xs[k].Str?
  {
    seq(|xs|, k requires 0 <= k < |xs| => xs[k].s)
  }

  lemma StrsOfSnoc(xs: seq<Value>, i: nat)
    requires i < |xs| && forall k :: 0 <= k <= i ==> xs[k].Str?
    ensures StrsOf(xs[..i + 1]) == StrsOf(xs[..i]) + [xs[i].s]
  {
  }

  function Keys(bs: seq<Bridge>): seq<string> {
    seq(|bs|, k requires 0 <= k < |bs| => bs[k].brKey)
  }

  function Names(bs: seq<Bridge>): seq<string> {
    seq(|bs|, k requires 0 <= k < |bs| => bs[k].brName)
  }

  function PortIps(bs: seq<Bridge>): seq<string> {
    seq(|bs|, k requires 0 <= k < |bs| => bs[k].brKey + "," + bs[k].brIp)
  }

  lemma PortIpsQuoteFree(bs: seq<Bridge>)
    requires forall k :: 0 <= k < |bs| ==> '"' !in bs[k].brKey && '"' !in bs[k].brIp
    ensures forall k :: 0 <= k < |PortIps(bs)| ==> '"' !in PortIps(bs)[k]
  {
    forall k | 0 <= k < |bs|
      ensures '"' !in PortIps(bs)[k]
    {
      assert PortIps(bs)[k] == bs[k].brKey + [','] + bs[k].brIp;
    }
  }

  /** The three `:`-free fields of `a:b:c` split back apart. */
  lemma VlanRangesSplit(a: string, b: string, c: string)
    ensures ':' !in a && ':' !in b && ':' !in c ==> Split(a + ":" + b + ":" + c, ':') == [a, b, c]
  {
    if ':' !in a && ':' !in b && ':' !in c {
      assert a + ":" + b + ":" + c == a + [':'] + (b + [':'] + c);
      SplitAfterPart(a, ':', b + [':'] + c);
      SplitAfterPart(b, ':', c);
      SplitSeparatorFree(c, ':');
    }
  }
}

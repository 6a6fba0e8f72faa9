/** The puppet manifest `PuppetTemplate` assembles for one OpenStack node
    (openstack/big_patch.py): fourteen default settings overridden by the
    caller's, the main body, the neutron body when a neutron path is known,
    the bond section when bond interfaces are configured, and one `file`
    resource per replacement file, whose content is a single-quoted puppet
    string. */
module OpenStackTemplate {
  import opened Py
  import opened PyStrings

  /** The settings every manifest body may refer to, with their defaults. */
  const Defaults: map<string, Value> := map[
    "bond_int0" := Str(""), "bond_int1" := Str(""), "bond_interfaces" := Str(""),
    "neutron_id" := Str(""), "bigswitch_servers" := Str(""),
    "bigswitch_serverauth" := Str(""), "network_vlan_ranges" := Str(""),
    "physical_bridge" := Str("br-ovs-bond0"), "bridge_mappings" := Str(""),
    "neutron_path" := Str(""), "neutron_restart_refresh_only" := Str(""),
    "offline_mode" := Str(""), "bond_mode" := Str(""), "lldp_advertised_name" := Str("")
  ]

  /** The settings of a template built from `given`: the defaults, each
      overridden by the caller's value for the same key. */
  function TemplateSettings(given: map<string, Value>): (r: map<string, Value>)
    ensures r.Keys == Defaults.Keys + given.Keys
    ensures forall k :: k in given ==> r[k] == given[k]
    ensures forall k :: k in Defaults && k !in given ==> r[k] == Defaults[k]
  {
    Defaults + given
  }

  /** An unsupplied physical bridge keeps its default, and the two
      settings `get_string` tests are always present. */
  lemma TemplateSettingsDefaults(given: map<string, Value>)
    ensures "physical_bridge" !in given ==> TemplateSettings(given)["physical_bridge"] == Str("br-ovs-bond0")
    ensures "neutron_path" in TemplateSettings(given) && "bond_interfaces" in TemplateSettings(given)
    ensures "neutron_path" !in given ==> !Truthy(TemplateSettings(given)["neutron_path"])
  {
  }

  // ---------------------------------------------------------------------
  // Replacement files

  function EscapeChar(c: char): string {
    if c == '\\' then "\\\\" else if c == '\'' then "\\'" else [c]
  }

  /** A file's contents as the body of a single-quoted puppet string:
      every backslash doubled and every quote preceded by a backslash. */
  function Escape(s: string): (r: string)
    ensures |r| >= |s|
    decreases |s|
  {
    if |s| == 0 then "" else EscapeChar(s[0]) + Escape(s[1..])
  }

  lemma {:induction false} ReplaceCharAppend(a: string, b: string, c: char, r: string)
    ensures ReplaceChar(a + b, c, r) == ReplaceChar(a, c, r) + ReplaceChar(b, c, r)
    decreases |a|
  {
    if |a| == 0 {
      assert a + b == b;
    } else {
      assert (a + b)[1..] == a[1..] + b;
      ReplaceCharAppend(a[1..], b, c, r);
    }
  }

  lemma ReplaceCharSingle(x: char, c: char, r: string)
    ensures ReplaceChar([x], c, r) == if x == c then r else [x]
  {
    assert [x][1..] == [];
  }

  /** The quote replacement applied to what the backslash replacement
      made of one character. */
  lemma QuoteAfterBackslash(x: char)
    ensures ReplaceChar(if x == '\\' then "\\\\" else [x], '\'', "\\'") == EscapeChar(x)
  {
    if x == '\\' {
      assert "\\\\" == ['\\'] + ['\\'];
      ReplaceCharAppend(['\\'], ['\\'], '\'', "\\'");
      ReplaceCharSingle('\\', '\'', "\\'");
    } else {
      ReplaceCharSingle(x, '\'', "\\'");
    }
  }

  /** The source's two replacements, backslashes first and quotes second,
      compute `Escape`. */
  lemma {:induction false} EscapeIsTwoReplaces(s: string)
    ensures ReplaceChar(ReplaceChar(s, '\\', "\\\\"), '\'', "\\'") == Escape(s)
    decreases |s|
  {
    if |s| > 0 {
      var x := if s[0] == '\\' then "\\\\" else [s[0]];
      var rest := ReplaceChar(s[1..], '\\', "\\\\");
      assert ReplaceChar(s, '\\', "\\\\") == x + rest;
      ReplaceCharAppend(x, rest, '\'', "\\'");
      EscapeIsTwoReplaces(s[1..]);
      QuoteAfterBackslash(s[0]);
    }
  }

  /** Puppet's reading of a single-quoted string body: `\\` stands for a
      backslash, `\'` for a quote, any other character for itself, and the
      first other quote ends the string. Gives the text and the index of
      the closing quote. */
  function ReadQuoted(t: string): Option<(string, nat)>
    decreases |t|
  {
    if |t| == 0 then None
    else if t[0] == '\'' then Some(("", 0))
    else if t[0] == '\\' && |t| >= 2 && (t[1] == '\\' || t[1] == '\'') then
      match ReadQuoted(t[2..])
      case None => None
      case Some(p) => Some(([t[1]] + p.0, p.1 + 2))
    else
      match ReadQuoted(t[1..])
      case None => None
      case Some(p) => Some(([t[0]] + p.0, p.1 + 1))
  }

  /** Puppet reads the escaped contents back exactly, and the string ends
      at the quote written after them. */
  lemma {:induction false} EscapeReadsBack(s: string, rest: string)
    ensures ReadQuoted(Escape(s) + ("'" + rest)) == Some((s, |Escape(s)|))
    decreases |s|
  {
    var t := Escape(s) + ("'" + rest);
    if |s| == 0 {
      assert t == "'" + rest;
    } else {
      var t' := Escape(s[1..]) + ("'" + rest);
      EscapeReadsBack(s[1..], rest);
      assert t == EscapeChar(s[0]) + t';
      if s[0] == '\\' || s[0] == '\'' {
        assert t[2..] == t';
      } else {
        assert t[1..] == t';
      }
      assert [s[0]] + s[1..] == s;
    }
  }

  /** The `file` resource up to the opening quote of its content. */
  function BlockHead(path: string): string {
    "\nfile {'" + path + "':\nensure => file,\npath => '" + path + "',\nmode => 0755,"
    + "\nnotify => Exec['restartneutronservices'],"
    + "\nrequire => Exec['neutronfilespresent'],"
    + "\ncontent => '"
  }

  /** The `file` resource that replaces `path` with `contents`. */
  function FileBlock(path: string, contents: string): string {
    BlockHead(path) + Escape(contents) + "'\n}"
  }

  /** The content attribute of a file block holds exactly the contents. */
  lemma FileBlockContent(path: string, contents: string)
    ensures ReadQuoted(FileBlock(path, contents)[|BlockHead(path)|..]) == Some((contents, |Escape(contents)|))
  {
    assert FileBlock(path, contents)[|BlockHead(path)|..] == Escape(contents) + ("'" + "\n}");
    EscapeReadsBack(contents, "\n}");
  }

  /** The file blocks of the replacement files, in order (folded from the
      right end, as the loop appends). */
  function FileBlocks(files: seq<(string, string)>): string
    decreases |files|
  {
    if |files| == 0 then ""
    else
      var f := files[|files| - 1];
      FileBlocks(files[..|files| - 1]) + FileBlock(f.0, f.1)
  }

  /** The manifest `get_string` returns, with `format(body, settings)`
      standing for Python's `body % settings`. */
  function Manifest(settings: map<string, Value>, files: seq<(string, string)>,
                    mainBody: string, neutronBody: string, bondSection: string,
                    format: (string, map<string, Value>) -> string): string
    requires "neutron_path" in settings && "bond_interfaces" in settings
  {
    format(mainBody, settings)
    + (if Truthy(settings["neutron_path"]) then format(neutronBody, settings) else "")
    + (if Truthy(settings["bond_interfaces"]) then bondSection else "")
    + FileBlocks(files)
  }

  /** The manifest starts with the main body; the neutron body follows
      exactly when a neutron path is set, the bond section exactly when
      bond interfaces are set. */
  lemma ManifestSections(settings: map<string, Value>, files: seq<(string, string)>,
                         mainBody: string, neutronBody: string, bondSection: string,
                         format: (string, map<string, Value>) -> string)
    requires "neutron_path" in settings && "bond_interfaces" in settings
    ensures var m := Manifest(settings, files, mainBody, neutronBody, bondSection, format);
            var main := format(mainBody, settings);
            var neutron := format(neutronBody, settings);
            StartsWith(m, main)
            && (Truthy(settings["neutron_path"]) ==> StartsWith(m[|main|..], neutron))
            && (!Truthy(settings["neutron_path"]) && Truthy(settings["bond_interfaces"]) ==>
                  StartsWith(m[|main|..], bondSection))
            && (!Truthy(settings["neutron_path"]) && !Truthy(settings["bond_interfaces"]) ==>
                  m[|main|..] == FileBlocks(files))
  {
    var main := format(mainBody, settings);
    var n := if Truthy(settings["neutron_path"]) then format(neutronBody, settings) else "";
    var b := if Truthy(settings["bond_interfaces"]) then bondSection else "";
    Parts(main, n, b, FileBlocks(files));
  }

  lemma Parts(a: string, b: string, c: string, d: string)
    ensures StartsWith(a + b + c + d, a)
    ensures (a + b + c + d)[|a|..] == b + c + d
    ensures StartsWith(b + c + d, b)
    ensures b == "" ==> b + c + d == c + d
    ensures b == "" && c == "" ==> b + c + d == d
  {
    assert a + b + c + d == a + (b + c + d);
  }

  /** Each replacement file adds its block at the end, after those added before. */
  lemma ManifestAddFile(settings: map<string, Value>, files: seq<(string, string)>,
                        mainBody: string, neutronBody: string, bondSection: string,
                        format: (string, map<string, Value>) -> string, path: string, contents: string)
    requires "neutron_path" in settings && "bond_interfaces" in settings
    ensures Manifest(settings, files + [(path, contents)], mainBody, neutronBody, bondSection, format) ==
            Manifest(settings, files, mainBody, neutronBody, bondSection, format) + FileBlock(path, contents)
  {
    assert (files + [(path, contents)])[..|files|] == files;
  }

  /** `for key in given: base[key] = given[key]`. */
  method Overlay(base: map<string, Value>, given: map<string, Value>) returns (s: map<string, Value>)
    ensures s == base + given
  {
    s := base;
    var pending := given.Keys;
    while pending != {}
      invariant pending <= given.Keys
      invariant s.Keys == base.Keys + (given.Keys - pending)
      invariant forall k :: k in given.Keys - pending ==> s[k] == given[k]
      invariant forall k :: k in base && k !in given.Keys - pending ==> s[k] == base[k]
      decreases pending
    {
      var key :| key in pending;
      s := s[key := given[key]];
      pending := pending - {key};
    }
  }

  /** One file resource, built as the source builds it: the two
      replacements, then the `%` of the block format. */
  method BuildFileBlock(path: string, contents: string) returns (block: string)
    ensures block == FileBlock(path, contents)
  {
    var escaped := ReplaceChar(ReplaceChar(contents, '\\', "\\\\"), '\'', "\\'");
    EscapeIsTwoReplaces(contents);
    block := BlockHead(path) + escaped + "'\n}";
  }

  lemma FileBlocksSnoc(files: seq<(string, string)>, i: nat)
    requires i < |files|
    ensures FileBlocks(files[..i + 1]) == FileBlocks(files[..i]) + FileBlock(files[i].0, files[i].1)
  {
    assert files[..i + 1][..i] == files[..i];
  }

  lemma Associative(a: string, b: string, c: string)
    ensures a + (b + c) == a + b + c
  {
  }

  /** The loop of `get_string` that appends one file block per file. */
  method AppendFileBlocks(head: string, files: seq<(string, string)>) returns (manifest: string)
    ensures manifest == head + FileBlocks(files)
  {
    manifest := head;
    var i := 0;
    while i < |files|
      invariant 0 <= i <= |files|
      invariant manifest == head + FileBlocks(files[..i])
    {
      var block := BuildFileBlock(files[i].0, files[i].1);
      FileBlocksSnoc(files, i);
      Associative(head, FileBlocks(files[..i]), block);
      manifest := manifest + block;
      i := i + 1;
    }
    assert files[..|files|] == files;
  }

  /** The template object: its settings dict and the files to replace. */
  class PuppetTemplate {
    var settings: map<string, Value>
    var filesToReplace: seq<(string, string)>

    /** The two settings `get_string` tests are present. */
    predicate Valid()
      reads this
    {
      "neutron_path" in settings && "bond_interfaces" in settings
    }

    /** Starts from the defaults and copies every caller setting over them. */
    constructor (given: map<string, Value>)
      ensures settings == TemplateSettings(given)
      ensures filesToReplace == []
      ensures Valid()
    {
      var s := Overlay(Defaults, given);
      settings := s;
      filesToReplace := [];
      TemplateSettingsDefaults(given);
    }

    /** `ptemplate.settings[key] = value`, as `deploy_to_node` does for the neutron path. */
    method SetSetting(key: string, value: Value)
      requires Valid()
      modifies this`settings
      ensures settings == old(settings)[key := value]
      ensures Valid()
    {
      settings := settings[key := value];
    }

    method AddReplacementFile(path: string, contents: string)
      modifies this`filesToReplace
      ensures filesToReplace == old(filesToReplace) + [(path, contents)]
    {
      filesToReplace := filesToReplace + [(path, contents)];
    }

    /** `get_string`: the bodies are the template's fixed texts. */
    method GetString(mainBody: string, neutronBody: string, bondSection: string,
                     format: (string, map<string, Value>) -> string) returns (manifest: string)
      requires Valid()
      ensures manifest == Manifest(settings, filesToReplace, mainBody, neutronBody, bondSection, format)
    {
      ghost var neutron := if Truthy(settings["neutron_path"]) then format(neutronBody, settings) else "";
      ghost var bond := if Truthy(settings["bond_interfaces"]) then bondSection else "";
      manifest := format(mainBody, settings);
      if Truthy(settings["neutron_path"]) {
        manifest := manifest + format(neutronBody, settings);
      }
      if Truthy(settings["bond_interfaces"]) {
        manifest := manifest + bondSection;
      }
      assert manifest == format(mainBody, settings) + neutron + bond;
      manifest := AppendFileBlocks(manifest, filesToReplace);
    }
  }
}

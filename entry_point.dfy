/** The command-line entry point: the check that a loaded configuration has
    the keys the engine needs, and the exit status of a run. The
    configuration is a YAML document, so a section may be a dictionary, a
    string, a list or a scalar, and `key in section` means something
    different for each. */
module EntryPoint {
  import opened Wrappers
  import opened Strings

  /** A YAML value: a dictionary, a string, a list, or anything else
      (a number, a boolean, `null`). */
  datatype Value =
    | Mapping(fields: map<string, Value>)
    | Text(text: string)
    | List(items: seq<Value>)
    | Scalar

  /** `validate_config`'s answer: true, false naming the first key found
      missing, or an exception escaping it. */
  datatype Verdict = Valid | Invalid(missing: string) | Raises

  const TopKeys: seq<string> := ["musicbee", "dap", "sync"]
  const MusicBeeKeys: seq<string> := ["library_path", "library_xml", "playlists_path"]
  const DapKeys: seq<string> := ["ip_address", "music_path"]
  const SyncKeys: seq<string> := ["criteria"]

  /** Python's `key in v`: a key of a dictionary, a substring of a string,
      an element of a list; anything else raises. */
  function Has(v: Value, key: string): Option<bool> {
    match v
    case Mapping(fields) => Some(key in fields)
    case Text(text) => Some(Contains(text, key))
    case List(items) => Some(Text(key) in items)
    case Scalar => None
  }

  /** `v.get(key, {})`: only a dictionary has `get`. */
  function Section(v: Value, key: string): Option<Value> {
    if v.Mapping? then Some(if key in v.fields then v.fields[key] else Mapping(map[]))
    else None
  }

  /** One `for key in keys: if key not in v: return False` loop. */
  function CheckKeys(v: Value, keys: seq<string>): Verdict
    decreases |keys|
  {
    if keys == [] then Valid
    else
      match Has(v, keys[0])
      case None => Raises
      case Some(found) => if found then CheckKeys(v, keys[1..]) else Invalid(keys[0])
  }

  /** The keys of one section of `config`, looked up with `get`. */
  function SectionVerdict(config: Value, name: string, keys: seq<string>): Verdict {
    match Section(config, name)
    case None => Raises
    case Some(sec) => CheckKeys(sec, keys)
  }

  /** The first verdict that is not `Valid`. */
  function Then(a: Verdict, b: Verdict): Verdict {
    if a.Valid? then b else a
  }

  /** `validate_config`: the three sections, then the keys of each in turn. */
  function ValidateConfig(config: Value): Verdict {
    Then(CheckKeys(config, TopKeys),
    Then(SectionVerdict(config, "musicbee", MusicBeeKeys),
    Then(SectionVerdict(config, "dap", DapKeys),
         SectionVerdict(config, "sync", SyncKeys))))
  }

  /** How `sync_engine.sync()` ended. */
  datatype RunOutcome = Finished(success: bool) | Interrupted | Crashed

  /** Whether the configuration summary `main` logs after validation can be
      read: it indexes `library_path` of the `musicbee` section and
      `ip_address` and `music_path` of the `dap` section, and calls `get` on
      the `dap` and `sync` sections, so all three must be dictionaries. */
  predicate SummaryReadable(config: Value) {
    && config.Mapping?
    && forall k :: k in TopKeys ==> k in config.fields && config.fields[k].Mapping?
  }

  /** The exit status of `main` once the configuration is loaded: an invalid
      configuration or an exception from the validation ends with 1, as does
      a summary that cannot be read; a dry run ends with 0 before the engine
      is built, an engine that cannot be built with 1, and a run with 0 on
      success, 1 on failure or an exception and 130 when interrupted. */
  function ExitCode(verdict: Verdict, summaryOk: bool, dryRun: bool, engineBuilt: bool, run: RunOutcome): (code: int)
    ensures code == 0 || code == 1 || code == 130
    ensures code == 0 <==> verdict == Valid && summaryOk && (dryRun || (engineBuilt && run == Finished(true)))
    ensures code == 130 <==> verdict == Valid && summaryOk && !dryRun && engineBuilt && run == Interrupted
  {
    if !verdict.Valid? then 1
    else if !summaryOk then 1
    else if dryRun then 0
    else if !engineBuilt then 1
    else
      match run
      case Finished(success) => if success then 0 else 1
      case Interrupted => 130
      case Crashed => 1
  }

  // ----- properties -----

  /** One key loop accepts exactly when every key is found, raises only on a
      value without `in`, and otherwise names the first key not found. */
  lemma {:induction false} CheckKeysSpec(v: Value, keys: seq<string>)
    ensures CheckKeys(v, keys) == Valid <==> forall i :: 0 <= i < |keys| ==> Has(v, keys[i]) == Some(true)
    ensures CheckKeys(v, keys) == Raises <==> keys != [] && v.Scalar?
    ensures CheckKeys(v, keys).Invalid? ==>
      exists i :: 0 <= i < |keys| && keys[i] == CheckKeys(v, keys).missing && Has(v, keys[i]) == Some(false)
        && forall j :: 0 <= j < i ==> Has(v, keys[j]) == Some(true)
    decreases |keys|
  {
    if keys != [] {
      CheckKeysSpec(v, keys[1..]);
      if Has(v, keys[0]) == Some(true) {
        var r := CheckKeys(v, keys[1..]);
        if r.Invalid? {
          var i :| 0 <= i < |keys[1..]| && keys[1..][i] == r.missing && Has(v, keys[1..][i]) == Some(false)
                   && forall j :: 0 <= j < i ==> Has(v, keys[1..][j]) == Some(true);
          assert keys[i + 1] == r.missing;
          forall j | 0 <= j < i + 1
            ensures Has(v, keys[j]) == Some(true)
          {
            if j > 0 {
              assert keys[j] == keys[1..][j - 1];
            }
          }
        }
        if forall i :: 0 <= i < |keys[1..]| ==> Has(v, keys[1..][i]) == Some(true) {
          forall i | 0 <= i < |keys|
            ensures Has(v, keys[i]) == Some(true)
          {
            if i > 0 {
              assert keys[i] == keys[1..][i - 1];
            }
          }
        }
      }
    }
  }

  /** A configuration passes exactly when it is a dictionary with the three
      sections and each section answers `in` with true for each of its
      keys. */
  lemma ValidateConfigIff(config: Value)
    ensures ValidateConfig(config) == Valid <==>
      && config.Mapping?
      && "musicbee" in config.fields && "dap" in config.fields && "sync" in config.fields
      && (forall i :: 0 <= i < |MusicBeeKeys| ==> Has(config.fields["musicbee"], MusicBeeKeys[i]) == Some(true))
      && (forall i :: 0 <= i < |DapKeys| ==> Has(config.fields["dap"], DapKeys[i]) == Some(true))
      && (forall i :: 0 <= i < |SyncKeys| ==> Has(config.fields["sync"], SyncKeys[i]) == Some(true))
  {
    CheckKeysSpec(config, TopKeys);
    assert "musicbee" == TopKeys[0] && "dap" == TopKeys[1] && "sync" == TopKeys[2];
    if config.Mapping? && "musicbee" in config.fields && "dap" in config.fields && "sync" in config.fields {
      CheckKeysSpec(config.fields["musicbee"], MusicBeeKeys);
      CheckKeysSpec(config.fields["dap"], DapKeys);
      CheckKeysSpec(config.fields["sync"], SyncKeys);
    } else if CheckKeys(config, TopKeys) == Valid {
      assert Has(config, TopKeys[0]) == Some(true);
    }
  }

  /** With dictionary sections, a configuration passes exactly when the nine
      required keys are present; `dap.port` and every other key play no part. */
  lemma ValidWithMappings(config: Value)
    requires config.Mapping?
    requires forall k :: k in TopKeys && k in config.fields ==> config.fields[k].Mapping?
    ensures ValidateConfig(config) == Valid <==>
      && "musicbee" in config.fields && "dap" in config.fields && "sync" in config.fields
      && (forall k :: k in MusicBeeKeys ==> k in config.fields["musicbee"].fields)
      && (forall k :: k in DapKeys ==> k in config.fields["dap"].fields)
      && (forall k :: k in SyncKeys ==> k in config.fields["sync"].fields)
  {
    ValidateConfigIff(config);
    if "musicbee" in config.fields && "dap" in config.fields && "sync" in config.fields {
      assert "musicbee" == TopKeys[0] && "dap" == TopKeys[1] && "sync" == TopKeys[2];
      assert config.fields["musicbee"].Mapping? && config.fields["dap"].Mapping? && config.fields["sync"].Mapping?;
    }
  }

  /** A value with every entry of a dictionary replaced by a scalar. */
  function Blank(v: Value): Value {
    if v.Mapping? then Mapping(map k | k in v.fields :: Scalar) else v
  }

  /** The configuration with only its keys kept below the sections. */
  function Skeleton(config: Value): Value {
    if config.Mapping? then Mapping(map k | k in config.fields :: Blank(config.fields[k])) else config
  }

  /** Two values that answer `in` alike for the keys pass the key loop alike. */
  lemma {:induction false} CheckKeysAgree(v: Value, w: Value, keys: seq<string>)
    requires forall i :: 0 <= i < |keys| ==> Has(v, keys[i]) == Has(w, keys[i])
    ensures CheckKeys(v, keys) == CheckKeys(w, keys)
    decreases |keys|
  {
    if keys != [] {
      assert Has(v, keys[0]) == Has(w, keys[0]);
      CheckKeysAgree(v, w, keys[1..]);
    }
  }

  /** Blanking a section, or the entries below the sections, does not change
      its section's verdict. */
  lemma SectionSkeleton(config: Value, name: string, keys: seq<string>)
    ensures SectionVerdict(Skeleton(config), name, keys) == SectionVerdict(config, name, keys)
  {
    if config.Mapping? {
      var sec := Section(config, name).value;
      assert Section(Skeleton(config), name) == Some(Blank(sec)) by {
        if name !in config.fields {
          assert Blank(Mapping(map[])) == Mapping(map[]);
        }
      }
      CheckKeysAgree(Blank(sec), sec, keys);
    }
  }

  /** The values of the configuration are never looked at: only which keys
      it has, and what kind of value each section is. */
  lemma ValuesIgnored(config: Value)
    ensures ValidateConfig(Skeleton(config)) == ValidateConfig(config)
  {
    CheckKeysAgree(Skeleton(config), config, TopKeys);
    SectionSkeleton(config, "musicbee", MusicBeeKeys);
    SectionSkeleton(config, "dap", DapKeys);
    SectionSkeleton(config, "sync", SyncKeys);
  }

  /** A section written as a string passes when the string mentions its
      keys, and a section written as a list passes when it lists them; the
      summary that follows then raises, so the run ends with 1 even as a dry
      run. */
  lemma TextSectionPasses(mb: string, dap: string)
    requires mb == MusicBeeKeys[0] + " " + MusicBeeKeys[1] + " " + MusicBeeKeys[2]
    requires dap == DapKeys[0] + " " + DapKeys[1]
    ensures ValidateConfig(Mapping(map["musicbee" := Text(mb), "dap" := Text(dap), "sync" := List([Text("criteria")])])) == Valid
    ensures !SummaryReadable(Mapping(map["musicbee" := Text(mb), "dap" := Text(dap), "sync" := List([Text("criteria")])]))
  {
    var c := Mapping(map["musicbee" := Text(mb), "dap" := Text(dap), "sync" := List([Text("criteria")])]);
    // Each key occurs in its section's text, at the offset where it was written.
    var x, y, z := MusicBeeKeys[0], MusicBeeKeys[1], MusicBeeKeys[2];
    assert OccursAt(mb, x, 0) by { assert mb[0..|x|] == x; }
    assert OccursAt(mb, y, |x| + 1) by { assert mb[|x| + 1..|x| + 1 + |y|] == y; }
    assert OccursAt(mb, z, |x| + |y| + 2) by { assert mb[|x| + |y| + 2..|x| + |y| + 2 + |z|] == z; }
    var u, v := DapKeys[0], DapKeys[1];
    assert OccursAt(dap, u, 0) by { assert dap[0..|u|] == u; }
    assert OccursAt(dap, v, |u| + 1) by { assert dap[|u| + 1..|u| + 1 + |v|] == v; }
    assert Has(c.fields["sync"], SyncKeys[0]) == Some(true);
    ValidateConfigIff(c);
    assert "musicbee" == TopKeys[0] && !c.fields["musicbee"].Mapping?;
  }

  /** For dictionary sections, passing the validation is enough for the
      summary to be readable, so the exit status depends only on the verdict
      and the run. */
  lemma ValidMappingsReadable(config: Value)
    requires config.Mapping?
    requires forall k :: k in TopKeys && k in config.fields ==> config.fields[k].Mapping?
    requires ValidateConfig(config) == Valid
    ensures SummaryReadable(config)
  {
    ValidWithMappings(config);
  }
}

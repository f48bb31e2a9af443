/**
  Taking configured nodes out of the configuration by name.
 */
module ConfigNodes {
  import opened SourceRefs
  import opened RuntimePairing

  // The names asked for, trimmed; blank ones do not count.
  function TrimmedNames(names: seq<string>): set<string> {
    set name | name in names && Trim(name) != "" :: Trim(name)
  }

  function Without(config: seq<ConfigNode>, names: set<string>): (rest: seq<ConfigNode>)
    ensures |rest| <= |config|
  {
    if config == [] then []
    else
      var init, last := Without(config[..|config| - 1], names), config[|config| - 1];
      if last.name in names then init else init + [last]
  }

  // Some configured node has one of the names.
  predicate Present(config: seq<ConfigNode>, names: set<string>) {
    exists node :: node in config && node.name in names
  }

  // Nothing is asked for, or something is there to be removed and the configuration can be saved.
  predicate Removes(config: seq<ConfigNode>, names: seq<string>, saves: bool) {
    TrimmedNames(names) == {} || (saves && Present(config, TrimmedNames(names)))
  }

  function Remaining(config: seq<ConfigNode>, names: seq<string>, saves: bool): seq<ConfigNode> {
    if Removes(config, names, saves) then Without(config, TrimmedNames(names)) else config
  }

  // What remains are the other nodes; it is the same exactly if there was nothing to remove.
  lemma {:induction false} WithoutExactly(config: seq<ConfigNode>, names: set<string>)
    ensures forall node :: node in Without(config, names) <==> node in config && node.name !in names
    ensures |Without(config, names)| < |config| <==> Present(config, names)
    ensures Without(config, names) == config <==> !Present(config, names)
  {
    if config != [] {
      var init, last := config[..|config| - 1], config[|config| - 1];
      assert config == init + [last];
      WithoutExactly(init, names);
      assert forall node :: node in config <==> node in init || node == last;
    }
  }

  // The configuration is left alone exactly if nothing is asked for or the removal fails.
  lemma RemainingSame(config: seq<ConfigNode>, names: seq<string>, saves: bool)
    ensures Remaining(config, names, saves) == config <==> TrimmedNames(names) == {} || !Removes(config, names, saves)
  {
    WithoutExactly(config, TrimmedNames(names));
  }

  lemma TrimmedNone()
    ensures TrimmedNames([]) == {}
  {
  }

  lemma TrimmedStep(names: seq<string>, name: string)
    ensures TrimmedNames(names + [name]) == TrimmedNames(names) + if Trim(name) != "" then {Trim(name)} else {}
  {
    hide Trim;
    assert forall n :: n in names + [name] <==> n in names || n == name;
  }

  // Trimming and dropping repeats asks for the same.
  lemma TrimmedClean(names: seq<string>, clean: seq<string>)
    requires forall name :: name in clean <==> name in TrimmedNames(names)
    ensures TrimmedNames(clean) == TrimmedNames(names) && (clean == [] <==> TrimmedNames(names) == {})
  {
    hide Trim;
    forall name | name in TrimmedNames(names) ensures Trim(name) == name && name != "" {
      var n :| n in names && Trim(n) != "" && Trim(n) == name;
      TrimTwice(n);
    }
    forall name | name in TrimmedNames(names) ensures name in TrimmedNames(clean) { assert name in clean; }
    if clean != [] {
      assert clean[0] in clean;
    }
  }
}

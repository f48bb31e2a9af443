/**
  The multi-port runtime: building it from a node list, and changing it in place to another one.
  The listener tagged "in-T" is kept under T.
 */
module Reconcile {
  import opened Options
  import opened Orders
  import opened NodeNames

  datatype NodeConfig = NodeConfig(name: string, uri: string, chainProfileId: string, port: nat, settings: string)

  type Specs = map<string, NodeConfig>

  // Builds the outbound of a tag and an URI, or fails.
  type Builder = (string, string) -> Option<string>

  datatype Runtime = Runtime(inbounds: map<string, nat>, outbounds: map<string, string>, mappings: map<string, string>)

  const DispatchTag := "multi-port-dispatch"

  // ---- nodes by tag ----

  function Names(nodes: seq<NodeConfig>): (names: seq<string>)
    ensures |names| == |nodes| && forall i :: 0 <= i < |nodes| ==> names[i] == nodes[i].name
  {
    seq(|nodes|, i requires 0 <= i < |nodes| => nodes[i].name)
  }

  function TagAt(nodes: seq<NodeConfig>, i: nat): string
    requires i < |nodes|
  {
    TagsOf(Names(nodes), {})[i]
  }

  // `runtimeNodeSpecs`.
  function SpecsOf(nodes: seq<NodeConfig>): Specs {
    if nodes == [] then map[]
    else SpecsOf(nodes[..|nodes| - 1])[TagAt(nodes, |nodes| - 1) := nodes[|nodes| - 1]]
  }

  lemma TagAtPrefix(nodes: seq<NodeConfig>, n: nat, i: nat)
    requires i < n <= |nodes|
    ensures TagAt(nodes[..n], i) == TagAt(nodes, i)
  {
    hide TagsOf, Names;
    var names := Names(nodes);
    assert Names(nodes[..n]) == names[..n];
    TagsPrefix(names[..n], names[n..], {});
    assert names[..n] + names[n..] == names;
  }

  lemma {:induction false} SpecsAt(nodes: seq<NodeConfig>, i: nat)
    requires i < |nodes|
    ensures TagAt(nodes, i) in SpecsOf(nodes) && SpecsOf(nodes)[TagAt(nodes, i)] == nodes[i]
  {
    hide TagAt;
    var last := |nodes| - 1;
    if i < last {
      SpecsAt(nodes[..last], i);
      TagAtPrefix(nodes, last, i);
      TagAtDistinct(nodes, i, last);
    }
  }

  lemma TagAtDistinct(nodes: seq<NodeConfig>, i: nat, j: nat)
    requires i < j < |nodes|
    ensures TagAt(nodes, i) != TagAt(nodes, j)
  {
    TagsDistinct(Names(nodes), {}, i, j);
  }

  lemma {:induction false} SpecsKeys(nodes: seq<NodeConfig>, tag: string)
    ensures tag in SpecsOf(nodes) <==> exists i :: 0 <= i < |nodes| && tag == TagAt(nodes, i)
  {
    hide TagAt;
    if nodes != [] {
      var last := |nodes| - 1;
      SpecsKeys(nodes[..last], tag);
      forall i | 0 <= i < last ensures TagAt(nodes[..last], i) == TagAt(nodes, i) { TagAtPrefix(nodes, last, i); }
    }
  }

  // ---- the full build ----

  predicate Built(build: Builder, tag: string, node: NodeConfig) {
    build(tag, node.uri).Some?
  }

  // Without chain profiles a node that asks for one is skipped.
  predicate Served(build: Builder, tag: string, node: NodeConfig) {
    Built(build, tag, node) && node.chainProfileId == ""
  }

  function PortsOf(specs: Specs, tags: set<string>): map<string, nat> {
    map tag | tag in tags && tag in specs :: specs[tag].port
  }

  function OutboundsOf(specs: Specs, tags: set<string>, build: Builder): map<string, string> {
    map tag | tag in tags && tag in specs && Built(build, tag, specs[tag]) :: build(tag, specs[tag].uri).value
  }

  function MappingsOf(tags: set<string>): map<string, string> {
    map tag | tag in tags :: tag
  }

  function RuntimeOf(specs: Specs, tags: set<string>, build: Builder): Runtime {
    Runtime(PortsOf(specs, tags), OutboundsOf(specs, tags, build), MappingsOf(tags * specs.Keys))
  }

  function ServedTags(specs: Specs, build: Builder): set<string> {
    set tag | tag in specs && Served(build, tag, specs[tag])
  }

  // No error unless there is nothing to serve.
  function FullBuild(nodes: seq<NodeConfig>, build: Builder): Option<Runtime> {
    var specs := SpecsOf(nodes);
    if ServedTags(specs, build) == {} then None else Some(RuntimeOf(specs, ServedTags(specs, build), build))
  }

  // ---- what the runtime must be at any time ----

  // A connection accepted by a listener finds its outbound.
  ghost predicate Resolves(rt: Runtime) {
    forall tag {:trigger tag in rt.inbounds} :: tag in rt.inbounds ==>
      tag in rt.mappings && rt.mappings[tag] != "" && rt.mappings[tag] != DispatchTag && rt.mappings[tag] in rt.outbounds
  }

  ghost predicate DistinctListeners(rt: Runtime) {
    forall a, b {:trigger rt.inbounds[a], rt.inbounds[b]} :: a in rt.inbounds && b in rt.inbounds && a != b ==> rt.inbounds[a] != rt.inbounds[b]
  }

  ghost predicate Sound(rt: Runtime) {
    Resolves(rt) && DistinctListeners(rt)
  }

  // A node list as configuration keeps it: its ports are distinct, no tag is the dispatcher's.
  ghost predicate Deployable(specs: Specs) {
    && (forall a, b {:trigger specs[a], specs[b]} :: a in specs && b in specs && a != b ==> specs[a].port != specs[b].port)
    && DispatchTag !in specs && "" !in specs
  }

  ghost predicate KnownBuilt(specs: Specs, tags: set<string>, build: Builder) {
    forall tag {:trigger specs[tag]} :: tag in tags && tag in specs ==> Built(build, tag, specs[tag])
  }

  // The runtime listens for the nodes of `live`; the dispatcher may know more tags.
  ghost predicate Serves(rt: Runtime, specs: Specs, build: Builder, live: set<string>, mapped: set<string>) {
    && live <= specs.Keys && live <= mapped && KnownBuilt(specs, live, build)
    && rt == Runtime(PortsOf(specs, live), OutboundsOf(specs, live, build), MappingsOf(mapped))
  }

  lemma SoundAt(specs: Specs, live: set<string>, out: set<string>, mapped: set<string>, build: Builder)
    requires Deployable(specs) && KnownBuilt(specs, live, build) && live <= specs.Keys && live <= out && live <= mapped
    ensures Sound(Runtime(PortsOf(specs, live), OutboundsOf(specs, out, build), MappingsOf(mapped)))
  {
  }

  lemma FullBuildServes(nodes: seq<NodeConfig>, build: Builder)
    requires FullBuild(nodes, build).Some?
    ensures var served := ServedTags(SpecsOf(nodes), build); Serves(FullBuild(nodes, build).value, SpecsOf(nodes), build, served, served)
  {
    var specs := SpecsOf(nodes);
    assert ServedTags(specs, build) * specs.Keys == ServedTags(specs, build);
  }

  // A runtime is a full build's exactly if it listens for what a full build serves and maps no more.
  lemma ServesFullBuild(nodes: seq<NodeConfig>, rt: Runtime, build: Builder, live: set<string>, mapped: set<string>)
    requires Serves(rt, SpecsOf(nodes), build, live, mapped)
    ensures FullBuild(nodes, build) == Some(rt) <==> live != {} && live == mapped == ServedTags(SpecsOf(nodes), build)
  {
    hide SpecsOf;
    var specs := SpecsOf(nodes);
    var served := ServedTags(specs, build);
    assert served * specs.Keys == served;
    if FullBuild(nodes, build) == Some(rt) {
      assert PortsOf(specs, served).Keys == served && PortsOf(specs, live).Keys == live;
      assert MappingsOf(served).Keys == served && MappingsOf(mapped).Keys == mapped;
    }
  }

  // ---- the build of an instance ----

  // `createBox` refuses a build with fewer listeners than nodes.
  function WholeBuild(nodes: seq<NodeConfig>, build: Builder): Option<Runtime> {
    var full := FullBuild(nodes, build);
    if full.Some? && |full.value.inbounds| < |nodes| then None else full
  }

  // The runtime listens for every node and maps no more.
  ghost predicate ServesAll(rt: Runtime, nodes: seq<NodeConfig>, build: Builder) {
    Serves(rt, SpecsOf(nodes), build, SpecsOf(nodes).Keys, SpecsOf(nodes).Keys)
  }

  lemma {:induction false} SpecsCount(nodes: seq<NodeConfig>)
    ensures |SpecsOf(nodes).Keys| == |nodes|
  {
    hide TagAt;
    if nodes != [] {
      var last := |nodes| - 1;
      SpecsCount(nodes[..last]);
      TagFresh(nodes, last);
      assert nodes[..last + 1] == nodes;
      assert SpecsOf(nodes).Keys == SpecsOf(nodes[..last]).Keys + {TagAt(nodes, last)};
    }
  }

  lemma PortsCount(specs: Specs, tags: set<string>)
    requires tags <= specs.Keys
    ensures |PortsOf(specs, tags)| == |tags|
  {
    assert PortsOf(specs, tags).Keys == tags;
  }

  lemma SubsetWhole(some: set<string>, all: set<string>)
    requires some <= all
    ensures |some| <= |all| && (|some| == |all| <==> some == all)
  {
    assert all == some + (all - some);
  }

  lemma ServedAll(nodes: seq<NodeConfig>, build: Builder)
    ensures ServedTags(SpecsOf(nodes), build) == SpecsOf(nodes).Keys <==>
            forall i :: 0 <= i < |nodes| ==> Served(build, TagAt(nodes, i), nodes[i])
    ensures SpecsOf(nodes).Keys == {} <==> nodes == []
  {
    hide TagAt, SpecsOf, Served;
    var specs := SpecsOf(nodes);
    SpecsCount(nodes);
    forall i | 0 <= i < |nodes| ensures TagAt(nodes, i) in specs && specs[TagAt(nodes, i)] == nodes[i] { SpecsAt(nodes, i); }
    forall tag | tag in specs ensures exists i :: 0 <= i < |nodes| && tag == TagAt(nodes, i) { SpecsKeys(nodes, tag); }
    if forall i :: 0 <= i < |nodes| ==> Served(build, TagAt(nodes, i), nodes[i]) {
      forall tag | tag in specs ensures tag in ServedTags(specs, build) {
        var i :| 0 <= i < |nodes| && tag == TagAt(nodes, i);
      }
    }
  }

  // An instance is built exactly if there are nodes, all can be built and none asks for a chain; it
  // serves them all.
  lemma WholeExactly(nodes: seq<NodeConfig>, build: Builder)
    ensures WholeBuild(nodes, build).Some? <==> nodes != [] && forall i :: 0 <= i < |nodes| ==> Served(build, TagAt(nodes, i), nodes[i])
    ensures WholeBuild(nodes, build).Some? ==>
              WholeBuild(nodes, build) == FullBuild(nodes, build) && ServesAll(WholeBuild(nodes, build).value, nodes, build)
  {
    hide TagAt, SpecsOf, Served, Serves, ServedTags;
    var specs := SpecsOf(nodes);
    var served := ServedTags(specs, build);
    ServedWithin(specs, build);
    SpecsCount(nodes);
    ServedAll(nodes, build);
    PortsCount(specs, served);
    SubsetWhole(served, specs.Keys);
    if FullBuild(nodes, build).Some? {
      FullBuildServes(nodes, build);
    }
  }

  lemma ServedWithin(specs: Specs, build: Builder)
    ensures ServedTags(specs, build) <= specs.Keys
  {
  }

  // A runtime that serves all nodes is the one built for them exactly if there are any and none asks
  // for a chain.
  lemma ServesAllWhole(nodes: seq<NodeConfig>, rt: Runtime, build: Builder)
    requires ServesAll(rt, nodes, build)
    ensures WholeBuild(nodes, build) == Some(rt) <==> nodes != [] && forall i :: 0 <= i < |nodes| ==> nodes[i].chainProfileId == ""
  {
    hide TagAt, SpecsOf, FullBuild, WholeBuild, ServedTags, Serves, Built;
    var specs := SpecsOf(nodes);
    AllBuilt(nodes, rt, build);
    WholeExactly(nodes, build);
    ServedAll(nodes, build);
    ServesFullBuild(nodes, rt, build, specs.Keys, specs.Keys);
  }

  lemma AllBuilt(nodes: seq<NodeConfig>, rt: Runtime, build: Builder)
    requires ServesAll(rt, nodes, build)
    ensures forall i :: 0 <= i < |nodes| ==> Built(build, TagAt(nodes, i), nodes[i])
  {
    hide TagAt, SpecsOf, Built;
    forall i | 0 <= i < |nodes| ensures Built(build, TagAt(nodes, i), nodes[i]) { SpecsAt(nodes, i); }
  }

  ghost predicate DistinctPorts(nodes: seq<NodeConfig>) {
    forall i, j :: 0 <= i < j < |nodes| ==> nodes[i].port != nodes[j].port
  }

  lemma TagNotEmpty(nodes: seq<NodeConfig>, i: nat)
    requires i < |nodes|
    ensures TagAt(nodes, i) != ""
  {
    hide SanitizeTag;
    OwnTag(Names(nodes), {}, i);
    var base := TagBase(Names(nodes)[i], i);
    var n :| n >= 1 && TagAt(nodes, i) == Candidate(base, n);
    assert base != "";
  }

  lemma NodesDeployable(nodes: seq<NodeConfig>)
    requires DistinctPorts(nodes) && DispatchTag !in SpecsOf(nodes)
    ensures Deployable(SpecsOf(nodes))
  {
    hide TagAt;
    var specs := SpecsOf(nodes);
    forall a, b {:trigger specs[a], specs[b]} | a in specs && b in specs && a != b ensures specs[a].port != specs[b].port {
      SpecsKeys(nodes, a);
      SpecsKeys(nodes, b);
      var i :| 0 <= i < |nodes| && a == TagAt(nodes, i);
      var j :| 0 <= j < |nodes| && b == TagAt(nodes, j);
      SpecsAt(nodes, i);
      SpecsAt(nodes, j);
    }
    SpecsKeys(nodes, "");
    forall i | 0 <= i < |nodes| ensures TagAt(nodes, i) != "" { TagNotEmpty(nodes, i); }
  }

  // ---- building ----

  // `Build` in multi-port mode, as far as nodes go.
  method Build(nodes: seq<NodeConfig>, build: Builder) returns (result: Option<Runtime>)
    ensures result == FullBuild(nodes, build)
  {
    hide TagAt, TagsOf;
    var tags := NodeTags(Names(nodes), {});
    var members: seq<string> := [];
    var outbounds: map<string, string> := map[];
    var metadata: map<string, nat> := map[];
    ghost var specs := SpecsOf(nodes);
    for i := 0 to |nodes|
      invariant Members(members) == ServedTags(SpecsOf(nodes[..i]), build)
      invariant outbounds == OutboundsOf(specs, Members(members), build)
      invariant metadata == PortsOf(specs, Members(members))
    {
      BuildStep(nodes, build, i, members);
      var tag, node := tags[i], nodes[i];
      assert tag == TagAt(nodes, i) by { TagIs(nodes, i); }
      var outbound := build(tag, node.uri);
      if outbound.None? || node.chainProfileId != "" {
        continue;
      }
      members := members + [tag];
      outbounds := outbounds[tag := outbound.value];
      metadata := metadata[tag := node.port];
    }
    assert nodes[..|nodes|] == nodes;
    if members == [] {
      assert ServedTags(specs, build) == {};
      return None;
    }
    assert members[0] in Members(members);
    var inbounds: map<string, nat> := map[];
    var mappings: map<string, string> := map[];
    for i := 0 to |members|
      invariant inbounds == PortsOf(specs, Members(members[..i]))
      invariant mappings == MappingsOf(Members(members[..i]))
    {
      ListenStep(specs, members, build, i);
      inbounds := inbounds[members[i] := metadata[members[i]]];
      mappings := mappings[members[i] := members[i]];
    }
    assert members[..|members|] == members;
    assert ServedTags(specs, build) * specs.Keys == ServedTags(specs, build);
    result := Some(Runtime(inbounds, outbounds, mappings));
  }

  lemma TagIs(nodes: seq<NodeConfig>, i: nat)
    requires i < |nodes|
    ensures TagAt(nodes, i) == TagsOf(Names(nodes), {})[i]
  {
  }

  lemma BuildStep(nodes: seq<NodeConfig>, build: Builder, i: nat, members: seq<string>)
    requires i < |nodes| && Members(members) == ServedTags(SpecsOf(nodes[..i]), build)
    ensures var tag, specs := TagAt(nodes, i), SpecsOf(nodes);
            if Served(build, tag, nodes[i]) then
              && Members(members + [tag]) == ServedTags(SpecsOf(nodes[..i + 1]), build)
              && OutboundsOf(specs, Members(members + [tag]), build) ==
                 OutboundsOf(specs, Members(members), build)[tag := build(tag, nodes[i].uri).value]
              && PortsOf(specs, Members(members + [tag])) == PortsOf(specs, Members(members))[tag := nodes[i].port]
            else Members(members) == ServedTags(SpecsOf(nodes[..i + 1]), build)
  {
    hide TagAt, ServedTags, OutboundsOf, PortsOf, Members;
    var tag := TagAt(nodes, i);
    TagFresh(nodes, i);
    SpecsAt(nodes, i);
    ServedStep(SpecsOf(nodes[..i]), tag, nodes[i], build);
    MembersAdd(members, tag);
    if Served(build, tag, nodes[i]) {
      PartsAdd(SpecsOf(nodes), Members(members), tag, build);
    } else {
      assert ServedTags(SpecsOf(nodes[..i]), build) + {} == ServedTags(SpecsOf(nodes[..i]), build);
    }
  }

  lemma TagFresh(nodes: seq<NodeConfig>, i: nat)
    requires i < |nodes|
    ensures TagAt(nodes, i) !in SpecsOf(nodes[..i])
    ensures SpecsOf(nodes[..i + 1]) == SpecsOf(nodes[..i])[TagAt(nodes, i) := nodes[i]]
  {
    hide TagAt;
    var tag, head := TagAt(nodes, i), nodes[..i + 1];
    assert head[..i] == nodes[..i];
    TagAtPrefix(nodes, i + 1, i);
    SpecsKeys(nodes[..i], tag);
    forall j | 0 <= j < i ensures TagAt(nodes[..i], j) != tag {
      TagAtPrefix(nodes, i, j);
      TagAtDistinct(nodes, j, i);
    }
  }

  lemma MembersAdd(members: seq<string>, tag: string)
    ensures Members(members + [tag]) == Members(members) + {tag}
  {
  }

  lemma PartsAdd(specs: Specs, tags: set<string>, tag: string, build: Builder)
    requires tag in specs && Built(build, tag, specs[tag])
    ensures OutboundsOf(specs, tags + {tag}, build) == OutboundsOf(specs, tags, build)[tag := build(tag, specs[tag].uri).value]
    ensures PortsOf(specs, tags + {tag}) == PortsOf(specs, tags)[tag := specs[tag].port]
  {
  }

  lemma ServedStep(specs: Specs, tag: string, node: NodeConfig, build: Builder)
    requires tag !in specs
    ensures ServedTags(specs[tag := node], build) == ServedTags(specs, build) + if Served(build, tag, node) then {tag} else {}
  {
  }

  lemma ListenStep(specs: Specs, members: seq<string>, build: Builder, i: nat)
    requires i < |members| && Members(members) == ServedTags(specs, build)
    ensures members[i] in PortsOf(specs, Members(members))
    ensures PortsOf(specs, Members(members[..i + 1])) ==
            PortsOf(specs, Members(members[..i]))[members[i] := PortsOf(specs, Members(members))[members[i]]]
    ensures MappingsOf(Members(members[..i + 1])) == MappingsOf(Members(members[..i]))[members[i] := members[i]]
  {
    assert members[i] in Members(members);
    assert members[..i + 1] == members[..i] + [members[i]];
    assert Members(members[..i + 1]) == Members(members[..i]) + {members[i]};
  }

  // ---- changing a running instance in place ----

  // Tags served by the same node before and after.
  function Kept(current: Specs, desired: Specs): set<string> {
    set tag | tag in current && tag in desired && current[tag] == desired[tag]
  }

  lemma KeptSplits(current: Specs, desired: Specs)
    ensures var kept := Kept(current, desired);
            && current.Keys - (current.Keys - kept) == kept && desired.Keys - kept + kept == desired.Keys && kept <= desired.Keys && kept <= current.Keys
            && (forall tag :: tag in desired.Keys - kept <==> tag in desired && (tag !in current || current[tag] != desired[tag]))
            && (forall tag :: tag in current.Keys - kept <==> tag in current && (tag !in desired || desired[tag] != current[tag]))
  {
  }

  lemma PartsDrop(specs: Specs, tags: set<string>, tag: string, build: Builder)
    ensures PortsOf(specs, tags - {tag}) == PortsOf(specs, tags) - {tag}
    ensures OutboundsOf(specs, tags - {tag}, build) == OutboundsOf(specs, tags, build) - {tag}
  {
  }

  lemma DropNext(base: set<string>, tags: seq<string>, i: nat)
    requires i < |tags|
    ensures base - Members(tags[..i + 1]) == (base - Members(tags[..i])) - {tags[i]}
  {
    assert tags[..i + 1] == tags[..i] + [tags[i]];
  }

  lemma AddNext(base: set<string>, tags: seq<string>, i: nat)
    requires i < |tags|
    ensures base + Members(tags[..i + 1]) == (base + Members(tags[..i])) + {tags[i]}
  {
    assert tags[..i + 1] == tags[..i] + [tags[i]];
  }

  lemma EnumeratedMembers(tags: seq<string>, keys: set<string>)
    requires Enumerates(tags, keys)
    ensures Members(tags) == keys && Members(tags[..0]) == {} && Members(tags[..|tags|]) == keys
  {
    assert tags[..|tags|] == tags;
  }

  class Instance {
    var inbounds: map<string, nat>
    var outbounds: map<string, string>
    var mappings: map<string, string>

    constructor (rt: Runtime)
      ensures State() == rt
    {
      inbounds, outbounds, mappings := rt.inbounds, rt.outbounds, rt.mappings;
    }

    function State(): Runtime
      reads this
    {
      Runtime(inbounds, outbounds, mappings)
    }

    // An operation that fails may have happened or not.
    method Chance() returns (yes: bool)
    {
      yes := *;
    }

    method RemoveInbound(tag: string) returns (ok: bool)
      modifies this`inbounds
      ensures inbounds == old(inbounds) - {tag} || (!ok && inbounds == old(inbounds))
    {
      var happens := Chance();
      ok := Chance();
      if ok || happens {
        inbounds := inbounds - {tag};
      }
    }

    method RemoveOutbound(tag: string) returns (ok: bool)
      modifies this`outbounds
      ensures outbounds == old(outbounds) - {tag} || (!ok && outbounds == old(outbounds))
    {
      var happens := Chance();
      ok := Chance();
      if ok || happens {
        outbounds := outbounds - {tag};
      }
    }

    method CreateOutbound(tag: string, options: string) returns (ok: bool)
      modifies this`outbounds
      ensures outbounds == old(outbounds)[tag := options] || (!ok && outbounds == old(outbounds))
    {
      var happens := Chance();
      ok := Chance();
      if ok || happens {
        outbounds := outbounds[tag := options];
      }
    }

    method CreateInbound(tag: string, port: nat) returns (ok: bool)
      modifies this`inbounds
      ensures inbounds == old(inbounds)[tag := port] || (!ok && inbounds == old(inbounds))
    {
      var happens := Chance();
      ok := Chance();
      if ok || happens {
        inbounds := inbounds[tag := port];
      }
    }

    // The dispatcher: the outbound for a connection that came in by this listener.
    method Resolve(inbound: string, fallback: string) returns (outbound: Option<string>)
      ensures Sound(State()) && inbound in inbounds ==> outbound == Some(outbounds[mappings[inbound]])
      ensures inbound !in mappings && fallback == "" ==> outbound.None?
    {
      var tag := fallback;
      if inbound in mappings && mappings[inbound] != "" {
        tag := mappings[inbound];
      }
      if tag == "" {
        return None;
      }
      if tag !in outbounds || tag == DispatchTag {
        return None;
      }
      return Some(outbounds[tag]);
    }

    // Removes listeners, then outbounds.
    method RemoveOld(current: Specs, keep: set<string>, removeTags: seq<string>, build: Builder, ghost live: set<string>, ghost mapped: set<string>)
      returns (ok: bool)
      requires Deployable(current) && Serves(State(), current, build, live, mapped)
      requires keep <= current.Keys && Enumerates(removeTags, current.Keys - keep)
      modifies this
      ensures Sound(State())
      ensures ok ==> Serves(State(), current, build, live * keep, mapped)
    {
      hide PortsOf, OutboundsOf, MappingsOf, Members, Sound, Serves, Deployable, Enumerates, KnownBuilt, Kept, SpecsOf;
      ServesIs(State(), current, build, live, mapped);
      EnumeratedMembers(removeTags, current.Keys - keep);
      assert live - {} == live && live - (current.Keys - keep) == live * keep;
      for i := 0 to |removeTags|
        invariant State() == Runtime(PortsOf(current, live - Members(removeTags[..i])), OutboundsOf(current, live, build), MappingsOf(mapped))
      {
        DropNext(live, removeTags, i);
        PartsDrop(current, live - Members(removeTags[..i]), removeTags[i], build);
        SoundIn(current, live - Members(removeTags[..i]), live, mapped, build, live);
        SoundIn(current, live - Members(removeTags[..i + 1]), live, mapped, build, live);
        ok := RemoveInbound(removeTags[i]);
        if !ok {
          return;
        }
      }
      for i := 0 to |removeTags|
        invariant State() == Runtime(PortsOf(current, live * keep), OutboundsOf(current, live - Members(removeTags[..i]), build), MappingsOf(mapped))
      {
        DropNext(live, removeTags, i);
        PartsDrop(current, live - Members(removeTags[..i]), removeTags[i], build);
        StillThere(removeTags, current.Keys, keep, live, i);
        SoundIn(current, live * keep, live - Members(removeTags[..i]), mapped, build, live);
        SoundIn(current, live * keep, live - Members(removeTags[..i + 1]), mapped, build, live);
        ok := RemoveOutbound(removeTags[i]);
        if !ok {
          return;
        }
      }
      SoundIn(current, live * keep, live * keep, mapped, build, live);
      KnownIn(current, live * keep, live, build);
      ServesIs(State(), current, build, live * keep, mapped);
      ok := true;
    }

    // Creates outbounds, switches the dispatcher, then creates listeners.
    method AddNew(desired: Specs, addTags: seq<string>, build: Builder, ghost kept: set<string>, ghost mapped: set<string>) returns (ok: bool)
      requires Deployable(desired) && Serves(State(), desired, build, kept, mapped)
      requires Members(addTags) <= desired.Keys && KnownBuilt(desired, kept + Members(addTags), build)
      modifies this
      ensures Sound(State())
      ensures ok ==> Serves(State(), desired, build, kept + Members(addTags), desired.Keys)
    {
      hide PortsOf, OutboundsOf, MappingsOf, Members, Sound, Serves, Deployable, Enumerates, KnownBuilt, Kept, SpecsOf;
      ServesIs(State(), desired, build, kept, mapped);
      ghost var all := kept + Members(addTags);
      MembersWhole(addTags);
      assert kept + {} == kept;
      for i := 0 to |addTags|
        invariant State() == Runtime(PortsOf(desired, kept), OutboundsOf(desired, kept + Members(addTags[..i]), build), MappingsOf(mapped))
      {
        AddNext(kept, addTags, i);
        AddedIs(addTags, desired, kept, build, i);
        PartsAdd(desired, kept + Members(addTags[..i]), addTags[i], build);
        SoundIn(desired, kept, kept + Members(addTags[..i]), mapped, build, all);
        SoundIn(desired, kept, kept + Members(addTags[..i + 1]), mapped, build, all);
        ok := CreateOutbound(addTags[i], build(addTags[i], desired[addTags[i]].uri).value);
        if !ok {
          return;
        }
      }
      mappings := map tag | tag in desired :: tag;
      assert mappings == MappingsOf(desired.Keys) by { MappingsIs(desired.Keys, mappings); }
      for i := 0 to |addTags|
        invariant State() == Runtime(PortsOf(desired, kept + Members(addTags[..i])), OutboundsOf(desired, all, build), MappingsOf(desired.Keys))
      {
        AddNext(kept, addTags, i);
        AddedIs(addTags, desired, kept, build, i);
        PartsAdd(desired, kept + Members(addTags[..i]), addTags[i], build);
        StillWanted(addTags, kept, i);
        SoundIn(desired, kept + Members(addTags[..i]), all, desired.Keys, build, all);
        SoundIn(desired, kept + Members(addTags[..i + 1]), all, desired.Keys, build, all);
        ok := CreateInbound(addTags[i], desired[addTags[i]].port);
        if !ok {
          return;
        }
      }
      SoundIn(desired, all, all, desired.Keys, build, all);
      ServesIs(State(), desired, build, all, desired.Keys);
      ok := true;
    }

    // Success with a change makes the runtime serve the desired nodes that are new and those that it
    // served already, and map them all; a failure leaves it sound, and untouched if a new node cannot
    // be built.  `live` and `mapped` are what it served and mapped before.
    method ReconcileMultiPort(currentNodes: seq<NodeConfig>, desiredNodes: seq<NodeConfig>, build: Builder, ghost live: set<string>, ghost mapped: set<string>)
      returns (ok: bool)
      requires DistinctPorts(currentNodes) && DistinctPorts(desiredNodes)
      requires DispatchTag !in SpecsOf(currentNodes) && DispatchTag !in SpecsOf(desiredNodes)
      requires Serves(State(), SpecsOf(currentNodes), build, live, mapped)
      modifies this
      ensures Sound(State())
      ensures SpecsOf(currentNodes) == SpecsOf(desiredNodes) ==> ok && State() == old(State())
      ensures ok && SpecsOf(currentNodes) != SpecsOf(desiredNodes) ==>
                Serves(State(), SpecsOf(desiredNodes), build, LiveAfter(SpecsOf(currentNodes), SpecsOf(desiredNodes), live), SpecsOf(desiredNodes).Keys)
      ensures !KnownBuilt(SpecsOf(desiredNodes), SpecsOf(desiredNodes).Keys - Kept(SpecsOf(currentNodes), SpecsOf(desiredNodes)), build) ==>
                !ok && State() == old(State())
    {
      hide PortsOf, OutboundsOf, MappingsOf, Members, Sound, Serves, Deployable, Enumerates, KnownBuilt, Kept, SpecsOf;
      var current, desired := SpecsOf(currentNodes), SpecsOf(desiredNodes);
      NodesDeployable(currentNodes);
      NodesDeployable(desiredNodes);
      KeptSplits(current, desired);
      ServesIs(State(), current, build, live, mapped);
      SoundIn(current, live, live, mapped, build, live);
      var keep := Kept(current, desired);
      var removeTags := AnyOrder(current.Keys - keep);
      var addTags := AnyOrder(desired.Keys - keep);
      EnumeratedMembers(removeTags, current.Keys - keep);
      EnumeratedMembers(addTags, desired.Keys - keep);
      SameSpecs(current, desired, build);
      if removeTags == [] && addTags == [] {
        NoMembers(removeTags, addTags);
        return true;
      }
      SomeMembers(removeTags, addTags);
      for i := 0 to |addTags|
        invariant State() == old(State())
        invariant KnownBuilt(desired, Members(addTags[..i]), build)
      {
        WantedIn(addTags, desired.Keys - keep, i);
        AddNext({}, addTags, i);
        assert forall t: set<string> :: {} + t == t;
        OneMoreBuilt(desired, Members(addTags[..i]), addTags[i], desired.Keys - keep, build);
        if !Built(build, addTags[i], desired[addTags[i]]) {
          return false;
        }
      }
      ok := RemoveOld(current, keep, removeTags, build, live, mapped);
      if ok {
        KeptServes(State(), current, desired, build, live, mapped);
        BothBuilt(desired, live * keep, desired.Keys - keep, build);
        ok := AddNew(desired, addTags, build, live * keep, mapped);
      }
    }

    // From what a full build made: the change ends with what a full build of the desired nodes makes
    // exactly if nothing changed, or all desired nodes can be built and none asks for a chain.
    method ReconcileBuilt(currentNodes: seq<NodeConfig>, desiredNodes: seq<NodeConfig>, build: Builder) returns (ok: bool)
      requires DistinctPorts(currentNodes) && DistinctPorts(desiredNodes)
      requires DispatchTag !in SpecsOf(currentNodes) && DispatchTag !in SpecsOf(desiredNodes)
      requires FullBuild(currentNodes, build) == Some(State())
      modifies this
      ensures Sound(State())
      ensures ok ==>
                (FullBuild(desiredNodes, build) == Some(State()) <==>
                   || SpecsOf(currentNodes) == SpecsOf(desiredNodes)
                   || (desiredNodes != [] && forall i :: 0 <= i < |desiredNodes| ==> Served(build, TagAt(desiredNodes, i), desiredNodes[i])))
    {
      hide *;
      ghost var served := ServedTags(SpecsOf(currentNodes), build);
      FullBuildServes(currentNodes, build);
      SameFullBuild(currentNodes, desiredNodes, build);
      ok := ReconcileMultiPort(currentNodes, desiredNodes, build, served, served);
      if ok && SpecsOf(currentNodes) != SpecsOf(desiredNodes) {
        ReconciledFullBuild(currentNodes, desiredNodes, State(), build);
      }
    }

    // From an instance that serves all its nodes, as every instance does when it is built: so it does
    // after every change that succeeds, and it is what building it anew makes exactly if there are
    // nodes and none asks for a chain.
    method ReconcileServing(currentNodes: seq<NodeConfig>, desiredNodes: seq<NodeConfig>, build: Builder) returns (ok: bool)
      requires DistinctPorts(currentNodes) && DistinctPorts(desiredNodes)
      requires DispatchTag !in SpecsOf(currentNodes) && DispatchTag !in SpecsOf(desiredNodes)
      requires ServesAll(State(), currentNodes, build)
      modifies this
      ensures Sound(State())
      ensures ok ==> ServesAll(State(), desiredNodes, build)
      ensures ok ==>
                (WholeBuild(desiredNodes, build) == Some(State()) <==>
                   desiredNodes != [] && forall i :: 0 <= i < |desiredNodes| ==> desiredNodes[i].chainProfileId == "")
    {
      hide *;
      ghost var all := SpecsOf(currentNodes).Keys;
      ServesAllIs(State(), currentNodes, build);
      AllAfter(SpecsOf(currentNodes), SpecsOf(desiredNodes));
      ok := ReconcileMultiPort(currentNodes, desiredNodes, build, all, all);
      if ok {
        ServesAllIs(State(), desiredNodes, build);
        ServesAllWhole(desiredNodes, State(), build);
      }
    }
  }

  // What is served after a change.
  function LiveAfter(current: Specs, desired: Specs, live: set<string>): set<string> {
    live * Kept(current, desired) + (desired.Keys - Kept(current, desired))
  }

  lemma SameFullBuild(a: seq<NodeConfig>, b: seq<NodeConfig>, build: Builder)
    ensures SpecsOf(a) == SpecsOf(b) ==> FullBuild(a, build) == FullBuild(b, build)
  {
    hide SpecsOf;
  }

  lemma ServesAllIs(rt: Runtime, nodes: seq<NodeConfig>, build: Builder)
    ensures ServesAll(rt, nodes, build) <==> Serves(rt, SpecsOf(nodes), build, SpecsOf(nodes).Keys, SpecsOf(nodes).Keys)
  {
    hide SpecsOf, Serves;
  }

  lemma AllAfter(current: Specs, desired: Specs)
    ensures LiveAfter(current, desired, current.Keys) == desired.Keys
  {
  }

  // Starting from a full build: a change in place ends with what a full build of the desired nodes
  // makes exactly if every desired node can be built and none asks for a chain.
  lemma ReconciledFullBuild(currentNodes: seq<NodeConfig>, desiredNodes: seq<NodeConfig>, rt: Runtime, build: Builder)
    requires var current, desired := SpecsOf(currentNodes), SpecsOf(desiredNodes);
             Serves(rt, desired, build, LiveAfter(current, desired, ServedTags(current, build)), desired.Keys)
    ensures FullBuild(desiredNodes, build) == Some(rt) <==>
            desiredNodes != [] && forall i :: 0 <= i < |desiredNodes| ==> Served(build, TagAt(desiredNodes, i), desiredNodes[i])
  {
    hide TagAt, SpecsOf, Serves, FullBuild;
    var current, desired := SpecsOf(currentNodes), SpecsOf(desiredNodes);
    var live := LiveAfter(current, desired, ServedTags(current, build));
    ServesFullBuild(desiredNodes, rt, build, live, desired.Keys);
    forall i | 0 <= i < |desiredNodes| ensures TagAt(desiredNodes, i) in desired && desired[TagAt(desiredNodes, i)] == desiredNodes[i] {
      SpecsAt(desiredNodes, i);
    }
    if desiredNodes != [] && forall i :: 0 <= i < |desiredNodes| ==> Served(build, TagAt(desiredNodes, i), desiredNodes[i]) {
      forall tag | tag in desired ensures tag in ServedTags(desired, build) && tag in live {
        SpecsKeys(desiredNodes, tag);
      }
      assert TagAt(desiredNodes, 0) in live;
    } else if live != {} && live == desired.Keys == ServedTags(desired, build) {
      var tag :| tag in live;
      SpecsKeys(desiredNodes, tag);
    }
  }

  lemma ServesIs(rt: Runtime, specs: Specs, build: Builder, live: set<string>, mapped: set<string>)
    ensures Serves(rt, specs, build, live, mapped) <==>
            && live <= specs.Keys && live <= mapped && KnownBuilt(specs, live, build)
            && rt == Runtime(PortsOf(specs, live), OutboundsOf(specs, live, build), MappingsOf(mapped))
  {
  }

  lemma KnownIn(specs: Specs, some: set<string>, all: set<string>, build: Builder)
    requires KnownBuilt(specs, all, build) && some <= all
    ensures KnownBuilt(specs, some, build)
  {
  }

  lemma SoundIn(specs: Specs, live: set<string>, out: set<string>, mapped: set<string>, build: Builder, all: set<string>)
    requires Deployable(specs) && KnownBuilt(specs, all, build) && live <= all <= specs.Keys && live <= out && live <= mapped
    ensures Sound(Runtime(PortsOf(specs, live), OutboundsOf(specs, out, build), MappingsOf(mapped)))
  {
    KnownIn(specs, live, all, build);
    SoundAt(specs, live, out, mapped, build);
  }

  // Kept nodes are served by the desired specs as they are by the current ones.
  lemma KeptServes(rt: Runtime, current: Specs, desired: Specs, build: Builder, live: set<string>, mapped: set<string>)
    requires Serves(rt, current, build, live * Kept(current, desired), mapped)
    ensures Serves(rt, desired, build, live * Kept(current, desired), mapped)
  {
    var kept := live * Kept(current, desired);
    assert PortsOf(current, kept) == PortsOf(desired, kept);
    assert OutboundsOf(current, kept, build) == OutboundsOf(desired, kept, build);
  }

  lemma BothBuilt(specs: Specs, a: set<string>, b: set<string>, build: Builder)
    requires KnownBuilt(specs, b, build)
    ensures KnownBuilt(specs, a, build) ==> KnownBuilt(specs, a + b, build)
  {
  }

  lemma MembersWhole(tags: seq<string>)
    ensures Members(tags[..0]) == {} && Members(tags[..|tags|]) == Members(tags)
  {
    assert tags[..|tags|] == tags;
  }

  lemma NoMembers(a: seq<string>, b: seq<string>)
    requires a == [] && b == []
    ensures Members(a) == {} && Members(b) == {}
  {
  }

  lemma SomeMembers(a: seq<string>, b: seq<string>)
    requires a != [] || b != []
    ensures Members(a) != {} || Members(b) != {}
  {
    if a != [] {
      assert a[0] in Members(a);
    } else {
      assert b[0] in Members(b);
    }
  }

  lemma MappingsIs(tags: set<string>, mappings: map<string, string>)
    requires mappings == map tag | tag in tags :: tag
    ensures mappings == MappingsOf(tags)
  {
  }

  lemma StillThere(tags: seq<string>, all: set<string>, keep: set<string>, live: set<string>, i: nat)
    requires i < |tags| && Enumerates(tags, all - keep)
    ensures live * keep <= live - Members(tags[..i]) && live * keep <= live - Members(tags[..i + 1])
  {
    assert forall tag :: tag in tags[..i + 1] ==> tag in tags;
    assert forall tag :: tag in tags[..i] ==> tag in tags;
  }

  lemma StillWanted(tags: seq<string>, kept: set<string>, i: nat)
    requires i < |tags|
    ensures kept + Members(tags[..i]) <= kept + Members(tags) && kept + Members(tags[..i + 1]) <= kept + Members(tags)
  {
    assert forall tag :: tag in tags[..i + 1] ==> tag in tags;
    assert forall tag :: tag in tags[..i] ==> tag in tags;
  }

  lemma AddedIs(tags: seq<string>, specs: Specs, kept: set<string>, build: Builder, i: nat)
    requires i < |tags| && Members(tags) <= specs.Keys && KnownBuilt(specs, kept + Members(tags), build)
    ensures tags[i] in specs && Built(build, tags[i], specs[tags[i]]) && build(tags[i], specs[tags[i]].uri).Some?
  {
    assert tags[i] in Members(tags);
  }

  lemma WantedIn(tags: seq<string>, keys: set<string>, i: nat)
    requires i < |tags| && Enumerates(tags, keys)
    ensures tags[i] in keys
  {
    assert tags[i] in tags;
  }

  lemma OneMoreBuilt(specs: Specs, tags: set<string>, tag: string, all: set<string>, build: Builder)
    requires KnownBuilt(specs, tags, build) && tag in specs && tag in all
    ensures Built(build, tag, specs[tag]) ==> KnownBuilt(specs, tags + {tag}, build)
    ensures !Built(build, tag, specs[tag]) ==> !KnownBuilt(specs, all, build)
  {
  }

  // Nothing to remove or add means no change, and conversely; then there is nothing new to build.
  lemma SameSpecs(current: Specs, desired: Specs, build: Builder)
    ensures current == desired <==> current.Keys - Kept(current, desired) == {} && desired.Keys - Kept(current, desired) == {}
    ensures KnownBuilt(desired, {}, build)
  {
    if current.Keys - Kept(current, desired) == {} && desired.Keys - Kept(current, desired) == {} {
      forall tag | tag in current || tag in desired ensures tag in Kept(current, desired) {
        assert tag !in current.Keys - Kept(current, desired) && tag !in desired.Keys - Kept(current, desired);
      }
    }
  }
}

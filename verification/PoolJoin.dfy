/**
  Joining the pool: which of the listed nodes are taken, under which names, and that nothing but
  the listed nodes is touched.
 */
module PoolJoin {
  import opened SourceRefs
  import opened Nodes
  import opened Orders
  import opened StoreModel
  import opened StorePool
  import opened StoreUndo
  import opened RuntimePairing
  import opened RefsKept
  import NodeNames

  // Nothing outside these ids differs.
  ghost predicate SameOutside(a: NodeMap, b: NodeMap, ids: set<string>) {
    forall id {:trigger Get(a, id)} {:trigger Get(b, id)} :: id !in ids ==> Get(a, id) == Get(b, id)
  }

  lemma SameAll(m: NodeMap, ids: set<string>)
    ensures SameOutside(m, m, ids)
  {
  }

  lemma SameThrough(a: NodeMap, b: NodeMap, c: NodeMap, some: set<string>, ids: set<string>)
    requires SameOutside(a, b, some) && SameOutside(b, c, ids) && some <= ids
    ensures SameOutside(a, c, ids)
  {
    forall id | id !in ids ensures Get(a, id) == Get(c, id) { assert Get(a, id) == Get(b, id) == Get(c, id); }
  }

  function IdsOf(nodes: seq<ManagedNode>): set<string> {
    set node | node in nodes :: node.id
  }

  // ---- which nodes join ----

  function TaggedOriginalName(tagPrefix: string, original: string): string {
    var tag := if Trim(tagPrefix) == "" then "local" else Trim(tagPrefix);
    var name := Trim(original);
    if name == "" then tag else if tag + "-" <= name then name else tag + "-" + name
  }

  // A tagged name starts with the tag, ends with the name if there is one, and is not tagged again.
  lemma TaggedName(tagPrefix: string, original: string)
    ensures var tag, name := if Trim(tagPrefix) == "" then "local" else Trim(tagPrefix), Trim(original);
            var tagged := TaggedOriginalName(tagPrefix, original);
            && (name == "" ==> tagged == tag)
            && (name != "" ==>
                  tag + "-" <= tagged && tagged[|tagged| - |name|..] == name && TaggedOriginalName(tagPrefix, tagged) == tagged)
  {
    var tag, name := if Trim(tagPrefix) == "" then "local" else Trim(tagPrefix), Trim(original);
    TrimTwice(original);
    assert tag != [] && !IsSpace(tag[0]);
    if name != "" && !(tag + "-" <= name) {
      var tagged := tag + "-" + name;
      assert tagged[0] == tag[0] && tagged[|tagged| - 1] == name[|name| - 1];
    }
  }

  function JoinRoute(node: ManagedNode): Route {
    Route(Trim(node.uri), node.chainProfileId)
  }

  predicate MayJoin(m: NodeMap, id: string) {
    id in m && !PoolMember(m[id]) && m[id].state == Passed
  }

  // The listed nodes that can join.
  function Joinable(m: NodeMap, ids: set<string>): set<string> {
    set id | id in ids && id in m && MayJoin(m, id)
  }

  // ---- which listed nodes join ----

  // The routes the nodes that can join have, of those listed.
  function TakenRoutes(m: NodeMap, ids: seq<string>): set<Route> {
    set id | id in ids && MayJoin(m, id) && Trim(m[id].uri) != "" :: JoinRoute(m[id])
  }

  // A node on a route that is configured already, or that a node listed before it has.
  predicate Doubled(m: NodeMap, routes: set<Route>, earlier: seq<string>, id: string) {
    MayJoin(m, id) && Trim(m[id].uri) != "" && (JoinRoute(m[id]) in routes || JoinRoute(m[id]) in TakenRoutes(m, earlier))
  }

  function Duplicates(m: NodeMap, ids: seq<string>, routes: set<Route>): seq<string> {
    if ids == [] then []
    else
      var init, id := ids[..|ids| - 1], ids[|ids| - 1];
      Duplicates(m, init, routes) + if Doubled(m, routes, init, id) then [id] else []
  }

  function Joiners(m: NodeMap, ids: seq<string>, routes: set<Route>): seq<string> {
    if ids == [] then []
    else
      var init, id := ids[..|ids| - 1], ids[|ids| - 1];
      Joiners(m, init, routes) + if MayJoin(m, id) && !Doubled(m, routes, init, id) then [id] else []
  }

  // The listed nodes that have passed and are in no pool are either taken or duplicates, and no others
  // are; which one a list without repeats decides.
  lemma {:induction false} JoinersOrDuplicates(m: NodeMap, ids: seq<string>, routes: set<Route>)
    ensures forall id :: id in Joinable(m, Members(ids)) <==> id in Joiners(m, ids, routes) || id in Duplicates(m, ids, routes)
    ensures forall id :: id in Joinable(m, Members(ids)) <==> id in ids && id in m && m[id].state == Passed && !m[id].inPool
    ensures NoRepeats(ids) ==> NoRepeats(Joiners(m, ids, routes)) && NoRepeats(Duplicates(m, ids, routes))
    ensures NoRepeats(ids) ==> Members(Joiners(m, ids, routes)) !! Members(Duplicates(m, ids, routes))
  {
    JoinableExactly(m, ids);
    hide Doubled, MayJoin;
    if ids != [] {
      var init, id := ids[..|ids| - 1], ids[|ids| - 1];
      assert ids == init + [id];
      JoinersOrDuplicates(m, init, routes);
      DoubledMayJoin(m, routes, init, id);
      var joiners, duplicates := Joiners(m, init, routes), Duplicates(m, init, routes);
      assert Joiners(m, ids, routes) == joiners || Joiners(m, ids, routes) == joiners + [id];
      assert Duplicates(m, ids, routes) == duplicates || Duplicates(m, ids, routes) == duplicates + [id];
      if NoRepeats(ids) {
        assert id !in init by { assert forall i :: 0 <= i < |init| ==> init[i] == ids[i] && ids[i] != ids[|init|]; }
        assert NoRepeats(init);
        assert id !in Joinable(m, Members(init));
      }
    }
  }

  lemma JoinableExactly(m: NodeMap, ids: seq<string>)
    ensures forall id :: id in Joinable(m, Members(ids)) <==> id in ids && id in m && m[id].state == Passed && !m[id].inPool
  {
  }

  lemma DoubledMayJoin(m: NodeMap, routes: set<Route>, earlier: seq<string>, id: string)
    ensures Doubled(m, routes, earlier, id) ==> MayJoin(m, id)
    ensures MayJoin(m, id) ==> id in m
  {
  }

  lemma TakenIn(m: NodeMap, ids: seq<string>, id: string)
    ensures id in ids && MayJoin(m, id) && Trim(m[id].uri) != "" ==> JoinRoute(m[id]) in TakenRoutes(m, ids)
  {
    hide Trim, JoinRoute;
  }

  // The nodes taken can join, on routes that are not configured.
  lemma {:induction false} JoinerMay(m: NodeMap, ids: seq<string>, routes: set<Route>, id: string)
    requires id in Joiners(m, ids, routes)
    ensures id in ids && MayJoin(m, id) && (Trim(m[id].uri) != "" ==> JoinRoute(m[id]) !in routes)
  {
    hide Trim;
    var init, last := ids[..|ids| - 1], ids[|ids| - 1];
    assert ids == init + [last];
    if id in Joiners(m, init, routes) {
      JoinerMay(m, init, routes, id);
    }
  }

  // And no two of them share one.
  lemma {:induction false} JoinersApart(m: NodeMap, ids: seq<string>, routes: set<Route>, i: nat, j: nat)
    requires i < j < |Joiners(m, ids, routes)| && Joiners(m, ids, routes)[i] in m && Joiners(m, ids, routes)[j] in m
    requires Trim(m[Joiners(m, ids, routes)[j]].uri) != ""
    ensures JoinRoute(m[Joiners(m, ids, routes)[i]]) != JoinRoute(m[Joiners(m, ids, routes)[j]])
  {
    hide Trim;
    var init, last := ids[..|ids| - 1], ids[|ids| - 1];
    var joiners := Joiners(m, init, routes);
    if j < |joiners| {
      JoinersApart(m, init, routes, i, j);
    } else {
      assert joiners[i] in joiners;
      JoinerMay(m, init, routes, joiners[i]);
      TakenIn(m, init, joiners[i]);
    }
  }

  // ---- names ----

  // The name a node asks for: its own, or its tag and the name it came with.
  function WantedName(node: ManagedNode): string {
    var own := Trim(node.name);
    var name := if own != "" then own else TaggedOriginalName(node.tagPrefix, node.originalName);
    if Trim(name) == "" then "node" else Trim(name)
  }

  function NamesOf(nodes: seq<ManagedNode>): set<string> {
    set node | node in nodes :: node.name
  }

  // The node, renamed only: the first free numbering of the name it asks for.
  ghost predicate NamedAs(m: NodeMap, id: string, used: set<string>, node: ManagedNode) {
    id in m && node == m[id].(name := node.name) && NodeNames.FirstFree(WantedName(m[id]), used, node.name)
  }

  // The nodes taken, under names no other of them and no configured node has.
  ghost predicate Named(m: NodeMap, joiners: seq<string>, names: set<string>, nodes: seq<ManagedNode>) {
    && |nodes| == |joiners|
    && (forall k {:trigger nodes[k]} {:trigger joiners[k]} :: 0 <= k < |nodes| ==>
          joiners[k] in m && nodes[k] == m[joiners[k]].(name := nodes[k].name) && nodes[k].name !in names)
    && (forall i, j :: 0 <= i < j < |nodes| ==> nodes[i].name != nodes[j].name)
    && (forall k {:trigger nodes[k]} :: 0 <= k < |nodes| ==> NamedAs(m, joiners[k], names + NamesOf(nodes[..k]), nodes[k]))
  }

  // After a prefix of the list.
  ghost predicate Choosing(m: NodeMap, ids: seq<string>, names: set<string>, routes: set<Route>,
                           used: set<string>, seen: set<Route>, nodes: seq<ManagedNode>, duplicates: seq<string>) {
    && duplicates == Duplicates(m, ids, routes) && Named(m, Joiners(m, ids, routes), names, nodes)
    && used == names + NamesOf(nodes)
    && seen <= TakenRoutes(m, ids) <= seen + routes
  }

  lemma ChooseNone(m: NodeMap, names: set<string>, routes: set<Route>)
    ensures Choosing(m, [], names, routes, names, {}, [], [])
  {
    assert TakenRoutes(m, []) == {};
  }

  lemma TakenStep(m: NodeMap, ids: seq<string>, id: string)
    ensures TakenRoutes(m, ids + [id]) == TakenRoutes(m, ids) + if MayJoin(m, id) && Trim(m[id].uri) != "" then {JoinRoute(m[id])} else {}
  {
    hide Trim, JoinRoute;
    assert forall k :: k in ids + [id] <==> k in ids || k == id;
  }

  lemma ChooseStep(m: NodeMap, ids: seq<string>, names: set<string>, routes: set<Route>, used: set<string>, seen: set<Route>,
                   nodes: seq<ManagedNode>, duplicates: seq<string>, id: string)
    requires Choosing(m, ids, names, routes, used, seen, nodes, duplicates)
    ensures MayJoin(m, id) ==> id in m && (Trim(m[id].uri) != "" && (JoinRoute(m[id]) in routes || JoinRoute(m[id]) in seen) <==> Doubled(m, routes, ids, id))
    ensures !MayJoin(m, id) ==> Choosing(m, ids + [id], names, routes, used, seen, nodes, duplicates)
    ensures Doubled(m, routes, ids, id) ==> Choosing(m, ids + [id], names, routes, used, seen, nodes, duplicates + [id])
  {
    hide Trim, JoinRoute, Named, TakenRoutes;
    assert (ids + [id])[..|ids|] == ids;
    assert Joiners(m, ids, routes) + [] == Joiners(m, ids, routes) && Duplicates(m, ids, routes) + [] == Duplicates(m, ids, routes);
    TakenStep(m, ids, id);
  }

  lemma ChooseTakes(m: NodeMap, ids: seq<string>, names: set<string>, routes: set<Route>, used: set<string>, seen: set<Route>,
                    nodes: seq<ManagedNode>, duplicates: seq<string>, id: string, name: string)
    requires Choosing(m, ids, names, routes, used, seen, nodes, duplicates) && MayJoin(m, id) && !Doubled(m, routes, ids, id)
    requires id in m && NodeNames.FirstFree(WantedName(m[id]), used, name)
    ensures Choosing(m, ids + [id], names, routes, used + {name}, if Trim(m[id].uri) != "" then seen + {JoinRoute(m[id])} else seen,
                     nodes + [m[id].(name := name)], duplicates)
  {
    hide Trim, JoinRoute, TakenRoutes, Doubled, Named, NamesOf, WantedName;
    assert (ids + [id])[..|ids|] == ids;
    TakenStep(m, ids, id);
    NamedMore(m, Joiners(m, ids, routes), names, nodes, id, name);
  }

  lemma NamesMore(nodes: seq<ManagedNode>, node: ManagedNode)
    ensures NamesOf(nodes + [node]) == NamesOf(nodes) + {node.name}
    ensures forall i :: 0 <= i < |nodes| ==> nodes[i].name in NamesOf(nodes)
  {
    assert forall n :: n in nodes + [node] <==> n in nodes || n == node;
  }

  lemma NamedNow(m: NodeMap, id: string, used: set<string>, name: string)
    requires id in m && NodeNames.FirstFree(WantedName(m[id]), used, name)
    ensures NamedAs(m, id, used, m[id].(name := name)) && name !in used
  {
    hide WantedName;
  }

  lemma NamedMore(m: NodeMap, joiners: seq<string>, names: set<string>, nodes: seq<ManagedNode>, id: string, name: string)
    requires Named(m, joiners, names, nodes) && id in m && NodeNames.FirstFree(WantedName(m[id]), names + NamesOf(nodes), name)
    ensures Named(m, joiners + [id], names, nodes + [m[id].(name := name)])
    ensures NamesOf(nodes + [m[id].(name := name)]) == NamesOf(nodes) + {name}
  {
    hide WantedName, NamedAs, NamesOf;
    var node := m[id].(name := name);
    var all, ids := nodes + [node], joiners + [id];
    NamesMore(nodes, node);
    NamedNow(m, id, names + NamesOf(nodes), name);
    forall k {:trigger all[k]} | 0 <= k < |all| ensures NamedAs(m, ids[k], names + NamesOf(all[..k]), all[k]) {
      assert all[..k] == nodes[..k];
      assert k < |nodes| ==> all[k] == nodes[k] && ids[k] == joiners[k];
      assert k == |nodes| ==> nodes[..k] == nodes;
    }
  }

  lemma ChooseDone(m: NodeMap, ids: seq<string>, names: set<string>, routes: set<Route>,
                   used: set<string>, seen: set<Route>, nodes: seq<ManagedNode>, duplicates: seq<string>)
    requires Choosing(m, ids, names, routes, used, seen, nodes, duplicates)
    ensures duplicates == Duplicates(m, ids, routes) && Named(m, Joiners(m, ids, routes), names, nodes)
  {
  }

  // `promoteManyContext`, up to asking the node manager for ports.
  method ChooseJoining(m: NodeMap, ids: seq<string>, names: set<string>, routes: set<Route>)
    returns (nodes: seq<ManagedNode>, duplicates: seq<string>)
    requires Keyed(m)
    ensures duplicates == Duplicates(m, ids, routes) && Named(m, Joiners(m, ids, routes), names, nodes)
  {
    hide *;
    nodes, duplicates := [], [];
    var usedNames := names;
    var seenRoutes: set<Route> := {};
    ChooseNone(m, names, routes);
    for i := 0 to |ids|
      invariant Choosing(m, ids[..i], names, routes, usedNames, seenRoutes, nodes, duplicates)
    {
      assert ids[..i + 1] == ids[..i] + [ids[i]];
      ChooseStep(m, ids[..i], names, routes, usedNames, seenRoutes, nodes, duplicates, ids[i]);
      if !MayJoin(m, ids[i]) {
        continue;
      }
      var node := m[ids[i]];
      KeyedAt(m, ids[i]);
      var name := Trim(node.name);
      var route := JoinRoute(node);
      ghost var seenBefore := seenRoutes;
      if Trim(node.uri) != "" {
        if route in routes {
          duplicates := duplicates + [node.id];
          continue;
        }
        if route in seenRoutes {
          duplicates := duplicates + [node.id];
          continue;
        }
        seenRoutes := seenRoutes + {route};
      }
      if name == "" {
        name := TaggedOriginalName(node.tagPrefix, node.originalName);
      }
      ghost var usedBefore := usedNames;
      var base := name;
      name, usedNames := NodeNames.NextUniqueName(base, usedNames);
      WantedIs(node, base);
      ChooseTakes(m, ids[..i], names, routes, usedBefore, seenBefore, nodes, duplicates, ids[i], name);
      nodes := nodes + [node.(name := name)];
    }
    assert ids[..|ids|] == ids;
    ChooseDone(m, ids, names, routes, usedNames, seenRoutes, nodes, duplicates);
  }

  lemma KeyedAt(m: NodeMap, id: string)
    requires Keyed(m) && id in m
    ensures m[id].id == id
  {
  }

  lemma WantedIs(node: ManagedNode, base: string)
    requires base == if Trim(node.name) != "" then Trim(node.name) else TaggedOriginalName(node.tagPrefix, node.originalName)
    ensures WantedName(node) == if Trim(base) == "" then "node" else Trim(base)
  {
    hide Trim, TaggedOriginalName;
  }

  lemma FreeIs(base: string, used: set<string>, name: string)
    requires NodeNames.FirstFree(base, used, name)
    ensures name !in used
  {
  }

  // What the nodes taken are, for the steps that store them.
  lemma NamedFacts(m: NodeMap, joiners: seq<string>, names: set<string>, nodes: seq<ManagedNode>, ids: set<string>)
    requires Keyed(m) && Named(m, joiners, names, nodes) && forall id :: id in joiners ==> id in Joinable(m, ids)
    ensures |nodes| == |joiners| && (forall k :: 0 <= k < |nodes| ==> nodes[k].id == joiners[k]) && IdsOf(nodes) == Members(joiners)
    ensures forall node {:trigger node in nodes} :: node in nodes ==>
              node.id in m && !Listed(node) && !Listed(m[node.id]) && NodeRefs(node) == NodeRefs(m[node.id])
    ensures NoRepeats(joiners) ==> DistinctIds(nodes)
  {
    hide NodeRefs, Trim;
    forall k | 0 <= k < |nodes| ensures nodes[k].id == joiners[k] && joiners[k] in joiners { }
    forall node {:trigger node in nodes} | node in nodes
      ensures node.id in m && !Listed(node) && !Listed(m[node.id]) && NodeRefs(node) == NodeRefs(m[node.id]) && node.id in joiners
    {
      var k :| 0 <= k < |nodes| && nodes[k] == node;
      assert joiners[k] in joiners;
      RenamedRefs(m[node.id], node.name);
    }
    forall id | id in joiners ensures id in IdsOf(nodes) {
      var k :| 0 <= k < |joiners| && joiners[k] == id;
      assert nodes[k] in nodes;
    }
  }
}

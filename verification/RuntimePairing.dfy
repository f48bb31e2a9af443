/**
  The node pool and the runtime configuration: what it means that they agree, and why counting is
  enough to know it.
 */
module RuntimePairing {
  import opened SourceRefs
  import opened Nodes
  import opened Options
  import opened StoreModel
  import opened StoreWrites
  import opened StorePool
  import opened StoreUndo

  datatype ConfigNode = ConfigNode(name: string, uri: string, chain: string, port: nat)

  // A route is an URI and a chain profile, kept as the two parts of the joined key.
  datatype Route = Route(uri: string, chain: string)

  function RouteOf(node: ManagedNode): Route {
    Route(node.uri, node.chainProfileId)
  }

  function ConfigRoute(node: ConfigNode): Route {
    Route(node.uri, node.chain)
  }

  function ToConfigNode(node: ManagedNode): ConfigNode {
    ConfigNode(node.name, node.uri, node.chainProfileId, node.port)
  }

  function PoolIds(m: NodeMap): set<string> {
    set id | id in m && Listed(m[id])
  }

  ghost predicate DistinctRoutes(config: seq<ConfigNode>) {
    forall i, j :: 0 <= i < j < |config| ==> ConfigRoute(config[i]) != ConfigRoute(config[j])
  }

  ghost predicate PoolRoutesDistinct(m: NodeMap) {
    forall a, b :: a in PoolIds(m) && b in PoolIds(m) && a != b ==> RouteOf(m[a]) != RouteOf(m[b])
  }

  // The configuration runs this node, under its name and on its port.
  ghost predicate Runs(config: seq<ConfigNode>, node: ManagedNode) {
    node.port != 0 && exists i :: 0 <= i < |config| && config[i] == ToConfigNode(node)
  }

  ghost predicate Paired(m: NodeMap, config: seq<ConfigNode>) {
    && DistinctRoutes(config)
    && |config| == |PoolIds(m)|
    && forall id {:trigger m[id]} :: id in PoolIds(m) ==> Runs(config, m[id])
  }

  // Every configured node is a pool member's.
  ghost predicate Onto(m: NodeMap, config: seq<ConfigNode>) {
    forall i :: 0 <= i < |config| ==> HasMember(m, ConfigRoute(config[i]))
  }

  ghost predicate HasMember(m: NodeMap, route: Route) {
    exists id :: id in PoolIds(m) && RouteOf(m[id]) == route
  }

  ghost function Routes(m: NodeMap, ids: set<string>): set<Route> {
    set id | id in ids && id in m :: RouteOf(m[id])
  }

  ghost function ConfigRoutes(config: seq<ConfigNode>): set<Route> {
    set node | node in config :: ConfigRoute(node)
  }

  lemma {:induction false} RoutesCount(m: NodeMap, ids: set<string>)
    requires ids <= m.Keys
    ensures |Routes(m, ids)| <= |ids|
    ensures |Routes(m, ids)| == |ids| <==> forall a, b :: a in ids && b in ids && a != b ==> RouteOf(m[a]) != RouteOf(m[b])
    decreases |ids|
  {
    if ids != {} {
      var id :| id in ids;
      var rest := ids - {id};
      RoutesCount(m, rest);
      assert ids == rest + {id};
      assert Routes(m, ids) == Routes(m, rest) + {RouteOf(m[id])};
      if RouteOf(m[id]) in Routes(m, rest) {
        var b :| b in rest && RouteOf(m[b]) == RouteOf(m[id]);
        assert Routes(m, ids) == Routes(m, rest);
        assert b in ids && id in ids && b != id;
      } else {
        forall b | b in rest ensures RouteOf(m[b]) != RouteOf(m[id]) { assert RouteOf(m[b]) in Routes(m, rest); }
      }
    }
  }

  lemma {:induction false} ConfigCount(config: seq<ConfigNode>)
    requires DistinctRoutes(config)
    ensures |ConfigRoutes(config)| == |config|
  {
    if config != [] {
      var init, last := config[..|config| - 1], config[|config| - 1];
      assert config == init + [last];
      ConfigCount(init);
      assert ConfigRoutes(config) == ConfigRoutes(init) + {ConfigRoute(last)};
      assert ConfigRoute(last) !in ConfigRoutes(init);
    }
  }

  lemma SubsetCount(a: set<Route>, b: set<Route>)
    requires a <= b
    ensures |a| <= |b| && (|a| == |b| <==> a == b)
  {
    assert b == a + (b - a);
  }

  // Agreement by counting: the configuration runs nothing but the pool exactly when no two members
  // share a route.
  lemma PairedOnto(m: NodeMap, config: seq<ConfigNode>)
    requires Paired(m, config)
    ensures Onto(m, config) <==> PoolRoutesDistinct(m)
  {
    var ids := PoolIds(m);
    RoutesCount(m, ids);
    ConfigCount(config);
    var mine, all := Routes(m, ids), ConfigRoutes(config);
    forall route | route in mine ensures route in all {
      var id :| id in ids && RouteOf(m[id]) == route;
      assert Runs(config, m[id]);
      assert ToConfigNode(m[id]) in config;
    }
    SubsetCount(mine, all);
    OntoIs(m, config);
  }

  lemma OntoIs(m: NodeMap, config: seq<ConfigNode>)
    ensures Onto(m, config) <==> ConfigRoutes(config) <= Routes(m, PoolIds(m))
  {
    var ids := PoolIds(m);
    if Onto(m, config) {
      forall route | route in ConfigRoutes(config) ensures route in Routes(m, ids) {
        var i :| 0 <= i < |config| && ConfigRoute(config[i]) == route;
        assert HasMember(m, ConfigRoute(config[i]));
      }
    }
    if ConfigRoutes(config) <= Routes(m, ids) {
      forall i | 0 <= i < |config| ensures HasMember(m, ConfigRoute(config[i])) {
        assert config[i] in config;
        assert ConfigRoute(config[i]) in ConfigRoutes(config);
        assert ConfigRoute(config[i]) in Routes(m, ids);
      }
    }
  }

  // ---- writing ports and names back to the store ----

  lemma MergedSame(a: NodeMap, b: NodeMap, node: ManagedNode, now: nat)
    requires Get(a, node.id) == Get(b, node.id)
    ensures Merged(a, node, now) == Merged(b, node, now)
  {
    hide Dedup, NodeRefs;
  }

  lemma UpsertedAt(m: NodeMap, list: seq<ManagedNode>, now: nat, i: nat)
    requires DistinctIds(list) && i < |list|
    ensures Get(Applied(m, Upserts(m, list, now)), list[i].id) == Some(Merged(m, list[i], now))
  {
    hide Merged;
    var ws := Upserts(m, list, now);
    UpsertAt(m, list, now, i);
    forall j | i < j < |ws| ensures ws[j].Key() != ws[i].Key() {
      UpsertAt(m, list, now, j);
      MergedId(Applied(m, Upserts(m, list[..j], now)), list[j], now);
      MergedId(Applied(m, Upserts(m, list[..i], now)), list[i], now);
    }
    AppliedAt(m, ws, i);
    UpsertedOther(m, list[..i], now, list[i].id);
    MergedSame(m, Applied(m, Upserts(m, list[..i], now)), list[i], now);
    MergedId(m, list[i], now);
  }

  // The parts of a node the runtime sees.
  predicate SameRuntime(a: ManagedNode, b: ManagedNode) {
    ToConfigNode(a) == ToConfigNode(b) && a.id == b.id && a.state == b.state && a.inPool == b.inPool
  }

  lemma MergedRuntime(m: NodeMap, node: ManagedNode, now: nat)
    ensures SameRuntime(Merged(m, node, now), node)
  {
    hide Dedup, NodeRefs;
  }

  // ---- the pool as a list ----

  ghost predicate PoolList(m: NodeMap, ids: set<string>, pool: seq<ManagedNode>) {
    && DistinctIds(pool) && |pool| == |ids|
    && (forall node {:trigger node in pool} :: node in pool ==> node.id in ids && node.id in m && m[node.id] == node)
    && (forall id {:trigger id in ids} :: id in ids ==> id in m && m[id] in pool)
  }

  lemma PoolNone(m: NodeMap)
    ensures PoolList(m, PoolIds(m) - m.Keys, [])
  {
    assert PoolIds(m) - m.Keys == {};
  }

  lemma PoolStep(m: NodeMap, todo: set<string>, pool: seq<ManagedNode>, id: string)
    requires Keyed(m) && id in todo && id in m && PoolList(m, PoolIds(m) - todo, pool)
    ensures PoolList(m, PoolIds(m) - (todo - {id}), if Listed(m[id]) then pool + [m[id]] else pool)
  {
    var ids, ids' := PoolIds(m) - todo, PoolIds(m) - (todo - {id});
    if Listed(m[id]) {
      assert ids' == ids + {id};
      PoolAdd(m, ids, pool, id);
    } else {
      assert ids' == ids;
    }
  }

  lemma PoolAdd(m: NodeMap, ids: set<string>, pool: seq<ManagedNode>, id: string)
    requires Keyed(m) && id in m && id !in ids && PoolList(m, ids, pool)
    ensures PoolList(m, ids + {id}, pool + [m[id]])
  {
    var node := m[id];
    forall i | 0 <= i < |pool| ensures pool[i].id != id { assert pool[i] in pool; }
    forall n {:trigger n in pool + [node]} | n in pool + [node] ensures n.id in ids + {id} && n.id in m && m[n.id] == n {
      assert n in pool || n == node;
    }
  }

  // ---- synchronizing ports and names ----

  function Synced(node: ManagedNode, byRoute: map<Route, ConfigNode>): ManagedNode
    requires RouteOf(node) in byRoute
  {
    node.(port := byRoute[RouteOf(node)].port, name := byRoute[RouteOf(node)].name)
  }

  ghost predicate Configured(node: ManagedNode, byRoute: map<Route, ConfigNode>) {
    RouteOf(node) in byRoute && byRoute[RouteOf(node)].port != 0
  }

  ghost predicate SyncedFrom(updated: ManagedNode, pool: seq<ManagedNode>, byRoute: map<Route, ConfigNode>) {
    exists node :: node in pool && RouteOf(node) in byRoute && updated == Synced(node, byRoute)
  }

  // After the pool members of a prefix: all are configured, and those that differ are to be written.
  ghost predicate Syncing(pool: seq<ManagedNode>, byRoute: map<Route, ConfigNode>, updates: seq<ManagedNode>) {
    && DistinctIds(updates)
    && (forall node {:trigger node in pool} :: node in pool ==> Configured(node, byRoute))
    && (forall node {:trigger node in pool} :: node in pool ==> node == Synced(node, byRoute) || Synced(node, byRoute) in updates)
    && (forall updated {:trigger updated in updates} :: updated in updates ==> SyncedFrom(updated, pool, byRoute))
  }

  lemma SyncStep(pool: seq<ManagedNode>, byRoute: map<Route, ConfigNode>, updates: seq<ManagedNode>, node: ManagedNode)
    requires Syncing(pool, byRoute, updates) && Configured(node, byRoute)
    requires forall n {:trigger n in pool} :: n in pool ==> n.id != node.id
    ensures Syncing(pool + [node], byRoute, if Synced(node, byRoute) == node then updates else updates + [Synced(node, byRoute)])
  {
    var all := pool + [node];
    var updates' := if Synced(node, byRoute) == node then updates else updates + [Synced(node, byRoute)];
    forall n {:trigger n in all} | n in all
      ensures Configured(n, byRoute) && (n == Synced(n, byRoute) || Synced(n, byRoute) in updates')
    {
      assert n in pool || n == node;
    }
    forall u {:trigger u in updates'} | u in updates' ensures SyncedFrom(u, all, byRoute) {
      if u in updates {
        var n :| n in pool && RouteOf(n) in byRoute && u == Synced(n, byRoute);
        assert n in all;
      } else {
        assert node in all;
      }
    }
    forall i | 0 <= i < |updates| ensures updates[i].id != node.id {
      assert updates[i] in updates;
    }
  }

  // A configuration indexed by route.
  ghost predicate Indexed(config: seq<ConfigNode>, byRoute: map<Route, ConfigNode>) {
    && DistinctRoutes(config)
    && (forall i :: 0 <= i < |config| ==> ConfigRoute(config[i]) in byRoute && byRoute[ConfigRoute(config[i])] == config[i])
    && (forall route {:trigger route in byRoute} :: route in byRoute ==> byRoute[route] in config && ConfigRoute(byRoute[route]) == route)
  }

  lemma IndexStep(config: seq<ConfigNode>, byRoute: map<Route, ConfigNode>, node: ConfigNode)
    requires Indexed(config, byRoute)
    ensures ConfigRoute(node) !in byRoute ==> Indexed(config + [node], byRoute[ConfigRoute(node) := node])
    ensures ConfigRoute(node) in byRoute ==> !DistinctRoutes(config + [node])
  {
    var all := config + [node];
    if ConfigRoute(node) in byRoute {
      var i :| 0 <= i < |config| && config[i] == byRoute[ConfigRoute(node)];
      assert ConfigRoute(all[i]) == ConfigRoute(all[|config|]);
    }
  }

  // ---- what the check of the running configuration asks for ----

  ghost predicate HasPort(config: seq<ConfigNode>, route: Route) {
    exists i :: 0 <= i < |config| && ConfigRoute(config[i]) == route && config[i].port != 0
  }

  // As many nodes configured as there are members, on routes of their own, and every member's route
  // among them, on a port.
  ghost predicate Agrees(m: NodeMap, config: seq<ConfigNode>) {
    && DistinctRoutes(config)
    && |config| == |PoolIds(m)|
    && forall id {:trigger m[id]} :: id in PoolIds(m) ==> HasPort(config, RouteOf(m[id]))
  }

  lemma IndexedPort(config: seq<ConfigNode>, byRoute: map<Route, ConfigNode>, node: ManagedNode)
    requires Indexed(config, byRoute)
    ensures HasPort(config, RouteOf(node)) <==> Configured(node, byRoute)
  {
    if Configured(node, byRoute) {
      var i :| 0 <= i < |config| && config[i] == byRoute[RouteOf(node)];
      assert ConfigRoute(config[i]) == RouteOf(node);
    }
  }

  lemma AgreesExactly(m: NodeMap, config: seq<ConfigNode>, byRoute: map<Route, ConfigNode>, pool: seq<ManagedNode>)
    requires PoolList(m, PoolIds(m), pool) && Indexed(config, byRoute) && |config| == |pool|
    ensures Agrees(m, config) <==> forall node {:trigger node in pool} :: node in pool ==> Configured(node, byRoute)
  {
    hide HasPort, Configured, Indexed;
    assert DistinctRoutes(config) by { IndexedDistinct(config, byRoute); }
    if Agrees(m, config) {
      forall node {:trigger node in pool} | node in pool ensures Configured(node, byRoute) {
        assert m[node.id] == node;
        IndexedPort(config, byRoute, node);
      }
    }
    if forall node {:trigger node in pool} :: node in pool ==> Configured(node, byRoute) {
      forall id {:trigger m[id]} | id in PoolIds(m) ensures HasPort(config, RouteOf(m[id])) {
        assert m[id] in pool;
        IndexedPort(config, byRoute, m[id]);
      }
    }
  }

  lemma IndexedDistinct(config: seq<ConfigNode>, byRoute: map<Route, ConfigNode>)
    requires Indexed(config, byRoute)
    ensures DistinctRoutes(config)
  {
  }

  lemma PairedAgrees(m: NodeMap, config: seq<ConfigNode>)
    requires Paired(m, config)
    ensures Agrees(m, config)
  {
    forall id {:trigger m[id]} | id in PoolIds(m) ensures HasPort(config, RouteOf(m[id])) {
      assert Runs(config, m[id]);
      var i :| 0 <= i < |config| && config[i] == ToConfigNode(m[id]);
      assert ConfigRoute(config[i]) == RouteOf(m[id]);
    }
  }

  lemma PairedSynced(m: NodeMap, config: seq<ConfigNode>, byRoute: map<Route, ConfigNode>, id: string)
    requires Paired(m, config) && Indexed(config, byRoute) && id in PoolIds(m)
    ensures RouteOf(m[id]) in byRoute && Synced(m[id], byRoute) == m[id]
  {
    assert Runs(config, m[id]);
    var i :| 0 <= i < |config| && config[i] == ToConfigNode(m[id]);
    assert byRoute[ConfigRoute(config[i])] == config[i];
  }

  // Something is written only for a member that differs from what is configured.
  ghost predicate Needed(pool: seq<ManagedNode>, byRoute: map<Route, ConfigNode>, updates: seq<ManagedNode>) {
    updates != [] ==> exists node :: node in pool && RouteOf(node) in byRoute && Synced(node, byRoute) != node
  }

  // Where they are paired nothing is written.
  lemma NothingToSync(m: NodeMap, config: seq<ConfigNode>, byRoute: map<Route, ConfigNode>, pool: seq<ManagedNode>, updates: seq<ManagedNode>)
    requires PoolList(m, PoolIds(m), pool) && Indexed(config, byRoute) && Needed(pool, byRoute, updates)
    ensures Paired(m, config) ==> updates == []
  {
    hide Paired, Indexed, Synced;
    if Paired(m, config) {
      forall node | node in pool ensures RouteOf(node) in byRoute && Synced(node, byRoute) == node {
        assert m[node.id] == node;
        PairedSynced(m, config, byRoute, node.id);
      }
    }
  }

  // ---- the pool as a configuration, on its own ports or on others ----

  function WithPorts(nodes: seq<ConfigNode>, ports: Option<seq<nat>>): (r: seq<ConfigNode>)
    ensures |r| == |nodes|
  {
    if ports.Some? && |ports.value| == |nodes|
    then seq(|nodes|, i requires 0 <= i < |nodes| => nodes[i].(port := ports.value[i]))
    else nodes
  }

  function DesiredOf(pool: seq<ManagedNode>): (r: seq<ConfigNode>)
    ensures |r| == |pool|
  {
    seq(|pool|, i requires 0 <= i < |pool| => ToConfigNode(pool[i]))
  }

  // Every member has a port: its own, or the one it is given.
  ghost predicate PortsGiven(m: NodeMap, ports: Option<seq<nat>>) {
    if ports.Some? && |ports.value| == |PoolIds(m)| then forall i :: 0 <= i < |ports.value| ==> ports.value[i] != 0
    else forall id {:trigger m[id]} :: id in PoolIds(m) ==> m[id].port != 0
  }

  lemma DesiredDistinct(m: NodeMap, pool: seq<ManagedNode>, ports: Option<seq<nat>>)
    requires Keyed(m) && PoolList(m, PoolIds(m), pool)
    ensures DistinctRoutes(WithPorts(DesiredOf(pool), ports)) <==> PoolRoutesDistinct(m)
  {
    var config := WithPorts(DesiredOf(pool), ports);
    assert forall i :: 0 <= i < |pool| ==> ConfigRoute(config[i]) == RouteOf(pool[i]);
    if DistinctRoutes(config) {
      forall a, b | a in PoolIds(m) && b in PoolIds(m) && a != b ensures RouteOf(m[a]) != RouteOf(m[b]) {
        var i :| 0 <= i < |pool| && pool[i] == m[a];
        var j :| 0 <= j < |pool| && pool[j] == m[b];
        assert pool[i].id == a && pool[j].id == b;
        assert i < j || j < i;
        assert ConfigRoute(config[i]) != ConfigRoute(config[j]);
      }
    }
    if PoolRoutesDistinct(m) {
      forall i, j | 0 <= i < j < |config| ensures ConfigRoute(config[i]) != ConfigRoute(config[j]) {
        assert pool[i] in pool && pool[j] in pool;
      }
    }
  }
  // Every configured member is on the port it was on.
  ghost predicate MembersStay(m: NodeMap, before: seq<ConfigNode>, after: seq<ConfigNode>) {
    |after| == |before| && forall i {:trigger before[i]} :: 0 <= i < |before| && HasMember(m, ConfigRoute(before[i])) ==> after[i] == before[i]
  }

  // A pool paired with a configuration stays so, when the configuration is stored again and may be
  // given other ports, exactly if every configured member stays on its port.
  lemma PortsPaired(m: NodeMap, config: seq<ConfigNode>, ports: Option<seq<nat>>)
    requires Paired(m, config)
    ensures Paired(m, WithPorts(config, ports)) <==> MembersStay(m, config, WithPorts(config, ports))
  {
    var after := WithPorts(config, ports);
    forall i | 0 <= i < |config| ensures ConfigRoute(after[i]) == ConfigRoute(config[i]) { }
    if Paired(m, after) {
      forall i {:trigger config[i]} | 0 <= i < |config| && HasMember(m, ConfigRoute(config[i])) ensures after[i] == config[i] {
        var id :| id in PoolIds(m) && RouteOf(m[id]) == ConfigRoute(config[i]);
        assert Runs(config, m[id]) && Runs(after, m[id]);
        var j :| 0 <= j < |config| && config[j] == ToConfigNode(m[id]);
        var k :| 0 <= k < |after| && after[k] == ToConfigNode(m[id]);
        assert ConfigRoute(config[j]) == ConfigRoute(config[i]) && ConfigRoute(after[k]) == ConfigRoute(after[i]);
      }
    }
    if MembersStay(m, config, after) {
      forall id {:trigger m[id]} | id in PoolIds(m) ensures Runs(after, m[id]) {
        assert Runs(config, m[id]);
        var j :| 0 <= j < |config| && config[j] == ToConfigNode(m[id]);
        assert HasMember(m, ConfigRoute(config[j])) && after[j] == config[j];
      }
    }
  }

  // The pool as a configuration agrees with it exactly if no two members share a route and every one
  // has a port.
  lemma DesiredAgrees(m: NodeMap, pool: seq<ManagedNode>, ports: Option<seq<nat>>)
    requires Keyed(m) && PoolList(m, PoolIds(m), pool)
    ensures Agrees(m, WithPorts(DesiredOf(pool), ports)) <==> PoolRoutesDistinct(m) && PortsGiven(m, ports)
  {
    var config := WithPorts(DesiredOf(pool), ports);
    DesiredDistinct(m, pool, ports);
    if PoolRoutesDistinct(m) {
      forall i | 0 <= i < |pool| ensures HasPort(config, RouteOf(pool[i])) <==> config[i].port != 0 {
        assert ConfigRoute(config[i]) == RouteOf(pool[i]);
      }
      DesiredPorts(m, pool, ports);
    }
  }

  lemma DesiredPorts(m: NodeMap, pool: seq<ManagedNode>, ports: Option<seq<nat>>)
    requires Keyed(m) && PoolList(m, PoolIds(m), pool)
    requires var config := WithPorts(DesiredOf(pool), ports);
             forall i :: 0 <= i < |pool| ==> (HasPort(config, RouteOf(pool[i])) <==> config[i].port != 0)
    ensures PortsGiven(m, ports) <==> forall id {:trigger m[id]} :: id in PoolIds(m) ==> HasPort(WithPorts(DesiredOf(pool), ports), RouteOf(m[id]))
  {
    hide HasPort;
    var config := WithPorts(DesiredOf(pool), ports);
    forall i | 0 <= i < |pool| ensures pool[i].id in PoolIds(m) && m[pool[i].id] == pool[i] { assert pool[i] in pool; }
    if PortsGiven(m, ports) {
      forall id {:trigger m[id]} | id in PoolIds(m) ensures HasPort(config, RouteOf(m[id])) {
        var i :| 0 <= i < |pool| && pool[i] == m[id];
        assert config[i].port != 0;
      }
    }
    if forall id {:trigger m[id]} :: id in PoolIds(m) ==> HasPort(config, RouteOf(m[id])) {
      forall i | 0 <= i < |pool| ensures config[i].port != 0 { assert m[pool[i].id] == pool[i]; }
      if ports.Some? && |ports.value| == |pool| {
        forall i | 0 <= i < |ports.value| ensures ports.value[i] != 0 { assert config[i].port == ports.value[i]; }
      } else {
        forall id {:trigger m[id]} | id in PoolIds(m) ensures m[id].port != 0 {
          var i :| 0 <= i < |pool| && pool[i] == m[id];
          assert config[i].port == m[id].port;
        }
      }
    }
  }

  lemma LastIndexed(config: seq<ConfigNode>, byRoute: map<Route, ConfigNode>, i: nat)
    requires i < |config| && DistinctRoutes(config) && Indexed(config[..i], byRoute)
    ensures Indexed(config[..i + 1], byRoute[ConfigRoute(config[i]) := config[i]])
  {
    assert config[..i + 1] == config[..i] + [config[i]];
    assert DistinctRoutes(config[..i + 1]);
    IndexStep(config[..i], byRoute, config[i]);
  }

  lemma RouteIndexed(pool: seq<ManagedNode>, ports: Option<seq<nat>>, byRoute: map<Route, ConfigNode>, i: nat)
    requires i < |pool| && Indexed(WithPorts(DesiredOf(pool), ports), byRoute)
    ensures RouteOf(pool[i]) in byRoute
  {
    assert ConfigRoute(WithPorts(DesiredOf(pool), ports)[i]) == RouteOf(pool[i]);
  }

  // Every member written back as the index says.
  ghost predicate AllSynced(pool: seq<ManagedNode>, byRoute: map<Route, ConfigNode>, updates: seq<ManagedNode>) {
    |updates| == |pool| && forall i :: 0 <= i < |pool| ==> RouteOf(pool[i]) in byRoute && updates[i] == Synced(pool[i], byRoute)
  }

  lemma AllSyncedAt(m: NodeMap, pool: seq<ManagedNode>, byRoute: map<Route, ConfigNode>, updates: seq<ManagedNode>, now: nat, id: string)
    requires Keyed(m) && PoolList(m, PoolIds(m), pool) && AllSynced(pool, byRoute, updates) && DistinctIds(updates)
    ensures var after := Applied(m, Upserts(m, updates, now));
            if id in PoolIds(m)
            then id in after && RouteOf(m[id]) in byRoute && SameRuntime(after[id], Synced(m[id], byRoute))
            else Get(after, id) == Get(m, id)
  {
    hide Merged, Upserts, Applied;
    if id in PoolIds(m) {
      var i :| 0 <= i < |pool| && pool[i] == m[id];
      UpsertedAt(m, updates, now, i);
      MergedRuntime(m, updates[i], now);
    } else {
      forall i | 0 <= i < |updates| ensures updates[i].id != id { assert pool[i] in pool; }
      UpsertedOther(m, updates, now, id);
    }
  }

  // Then the members are the same, on the same routes, and agree as they did; and they are paired if
  // they agree.
  lemma AllSyncedAgrees(m: NodeMap, pool: seq<ManagedNode>, config: seq<ConfigNode>, byRoute: map<Route, ConfigNode>,
                        updates: seq<ManagedNode>, now: nat)
    requires Keyed(m) && PoolList(m, PoolIds(m), pool) && AllSynced(pool, byRoute, updates) && DistinctIds(updates)
    requires DistinctRoutes(config) ==> Indexed(config, byRoute)
    ensures var after := Applied(m, Upserts(m, updates, now));
            && PoolIds(after) == PoolIds(m) && (forall id :: id !in PoolIds(m) ==> Get(after, id) == Get(m, id))
            && (Agrees(after, config) <==> Agrees(m, config)) && (Agrees(m, config) ==> Paired(after, config))
  {
    hide Merged, Upserts, Applied, Indexed, DistinctRoutes, HasPort, Runs, AllSynced;
    var after := Applied(m, Upserts(m, updates, now));
    forall id ensures (id in PoolIds(after) <==> id in PoolIds(m)) && (id !in PoolIds(m) ==> Get(after, id) == Get(m, id))
      && (id in PoolIds(m) ==> id in after && RouteOf(after[id]) == RouteOf(m[id])) {
      AllSyncedAt(m, pool, byRoute, updates, now, id);
    }
    assert PoolIds(after) == PoolIds(m);
    if Agrees(m, config) {
      forall id {:trigger after[id]} | id in PoolIds(after) ensures Runs(config, after[id]) {
        AllSyncedAt(m, pool, byRoute, updates, now, id);
        assert HasPort(config, RouteOf(m[id]));
        IndexedPort(config, byRoute, m[id]);
        SyncedRuns(m[id], config, byRoute, after[id]);
      }
    }
  }

  lemma NotIndexed(m: NodeMap, config: seq<ConfigNode>)
    ensures !DistinctRoutes(config) || |config| != |PoolIds(m)| ==> !Agrees(m, config) && !Paired(m, config)
  {
  }

  lemma SyncedRuns(node: ManagedNode, config: seq<ConfigNode>, byRoute: map<Route, ConfigNode>, stored: ManagedNode)
    requires Indexed(config, byRoute) && Configured(node, byRoute) && SameRuntime(stored, Synced(node, byRoute))
    ensures Runs(config, stored)
  {
    var conf := byRoute[RouteOf(node)];
    assert conf in config;
    assert ToConfigNode(stored) == conf;
  }

  // Writing the differing members back leaves the pool paired with the configuration.
  lemma SyncedAt(m: NodeMap, pool: seq<ManagedNode>, config: seq<ConfigNode>, byRoute: map<Route, ConfigNode>, updates: seq<ManagedNode>,
                 now: nat, id: string)
    requires Keyed(m) && PoolList(m, PoolIds(m), pool) && Indexed(config, byRoute) && Syncing(pool, byRoute, updates)
    ensures var after := Applied(m, Upserts(m, updates, now));
            && (id in PoolIds(m) <==> id in PoolIds(after))
            && (id in PoolIds(m) ==> Runs(config, after[id]))
            && (id !in PoolIds(m) ==> Get(after, id) == Get(m, id))
  {
    hide Merged, Upserts, Applied, Runs, Indexed;
    var after := Applied(m, Upserts(m, updates, now));
    if i :| 0 <= i < |updates| && updates[i].id == id {
      UpsertedAt(m, updates, now, i);
      MergedRuntime(m, updates[i], now);
      assert updates[i] in updates;
      var node :| node in pool && RouteOf(node) in byRoute && updates[i] == Synced(node, byRoute);
      assert Get(after, id) == Some(Merged(m, updates[i], now));
      SyncedRuns(node, config, byRoute, after[id]);
    } else {
      UpsertedOther(m, updates, now, id);
      assert Get(after, id) == Get(m, id);
      if id in PoolIds(m) {
        assert m[id] in pool;
        assert Synced(m[id], byRoute).id == id;
        forall u {:trigger u in updates} | u in updates ensures u.id != id {
          var j :| 0 <= j < |updates| && updates[j] == u;
        }
        SyncedRuns(m[id], config, byRoute, m[id]);
      }
    }
  }

  lemma SyncedPairs(m: NodeMap, pool: seq<ManagedNode>, config: seq<ConfigNode>, byRoute: map<Route, ConfigNode>, updates: seq<ManagedNode>, now: nat)
    requires Keyed(m) && PoolList(m, PoolIds(m), pool) && Indexed(config, byRoute) && Syncing(pool, byRoute, updates) && |config| == |pool|
    ensures var after := Applied(m, Upserts(m, updates, now)); Paired(after, config) && PoolIds(after) == PoolIds(m)
    ensures forall id :: id !in PoolIds(m) ==> Get(Applied(m, Upserts(m, updates, now)), id) == Get(m, id)
  {
    hide Upserts, Applied, Runs, Syncing, Get;
    var after := Applied(m, Upserts(m, updates, now));
    forall id ensures (id in PoolIds(m) <==> id in PoolIds(after)) && (id in PoolIds(m) ==> Runs(config, after[id]))
      && (id !in PoolIds(m) ==> Get(after, id) == Get(m, id)) {
      SyncedAt(m, pool, config, byRoute, updates, now, id);
    }
    assert PoolIds(after) == PoolIds(m);
  }
}

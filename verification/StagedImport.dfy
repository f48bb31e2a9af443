/**
  The staged import as one transaction over the store and the runtime configuration.  The replies
  of the node manager and of the table are arbitrary parameters; asked to create nodes or to reload,
  the manager may leave any configuration behind.
 */
module StagedImport {
  import opened SourceRefs
  import opened Nodes
  import opened Options
  import opened Orders
  import opened StoreModel
  import opened StoreWrites
  import opened StorePool
  import opened StoreUndo
  import opened ChangeSet
  import opened StagedPlan
  import opened StagedExact
  import opened RuntimePairing
  import opened PoolJoin
  import opened JoinOutcome
  import opened RefsKept
  import opened ConfigNodes
  import opened ImportCourse
  import NodeStore = Store

  // Not started: an error before the configuration to go back to was read.
  datatype Outcome = NotStarted | Refused | Crashed | RolledBack | RollbackFailed | Done(created: nat)

  class ImportService {
    const store: NodeStore.Store
    var config: seq<ConfigNode>

    constructor (store: NodeStore.Store)
      ensures this.store == store && config == []
    {
      this.store := store;
      config := [];
    }

    // ---- the node manager ----

    method Clock() returns (now: nat)
    {
      now := *;
    }

    method RestoreConfigNodes(nodes: seq<ConfigNode>, reply: RestoreReply) returns (ok: bool)
      modifies this`config
      ensures ok == reply.Restores? && config == RestoredTo(nodes, reply)
    {
      config := RestoredTo(nodes, reply);
      ok := reply.Restores?;
    }

    // ---- verifyAppliedRuntime ----

    method ListPoolNodes() returns (pool: seq<ManagedNode>)
      requires Keyed(store.nodes)
      ensures PoolList(store.nodes, PoolIds(store.nodes), pool)
    {
      hide *;
      pool := [];
      var todo := store.nodes.Keys;
      PoolNone(store.nodes);
      while todo != {}
        invariant todo <= store.nodes.Keys
        invariant PoolList(store.nodes, PoolIds(store.nodes) - todo, pool)
        decreases |todo|
      {
        var id :| id in todo;
        PoolStep(store.nodes, todo, pool, id);
        if Listed(store.nodes[id]) {
          pool := pool + [store.nodes[id]];
        }
        todo := todo - {id};
      }
      assert PoolIds(store.nodes) - {} == PoolIds(store.nodes);
    }

    method Index(configured: seq<ConfigNode>) returns (ok: bool, byRoute: map<Route, ConfigNode>)
      ensures ok ==> Indexed(configured, byRoute)
      ensures !ok ==> !DistinctRoutes(configured)
    {
      byRoute := map[];
      for i := 0 to |configured|
        invariant Indexed(configured[..i], byRoute)
      {
        assert configured[..i + 1] == configured[..i] + [configured[i]];
        IndexStep(configured[..i], byRoute, configured[i]);
        var key := ConfigRoute(configured[i]);
        if key in byRoute {
          assert !DistinctRoutes(configured[..i + 1]);
          return false, byRoute;
        }
        byRoute := byRoute[key := configured[i]];
      }
      assert configured[..|configured|] == configured;
      ok := true;
    }

    // The members whose port or name differs from the configuration's.
    method Differing(pool: seq<ManagedNode>, byRoute: map<Route, ConfigNode>) returns (ok: bool, updates: seq<ManagedNode>)
      requires DistinctIds(pool)
      ensures ok ==> Syncing(pool, byRoute, updates) && Needed(pool, byRoute, updates)
      ensures ok <==> forall node {:trigger node in pool} :: node in pool ==> Configured(node, byRoute)
    {
      hide Syncing, Needed;
      updates := [];
      SyncNone(byRoute);
      NeededNone(byRoute);
      for i := 0 to |pool|
        invariant Syncing(pool[..i], byRoute, updates) && Needed(pool[..i], byRoute, updates)
        invariant forall j :: 0 <= j < i ==> Configured(pool[j], byRoute)
      {
        assert pool[..i + 1] == pool[..i] + [pool[i]];
        var node := pool[i];
        assert node in pool;
        if RouteOf(node) !in byRoute {
          return false, updates;
        }
        var configured := byRoute[RouteOf(node)];
        if configured.port == 0 {
          return false, updates;
        }
        SyncStep(pool[..i], byRoute, updates, node);
        NeededStep(pool[..i], byRoute, updates, node);
        if node.port != configured.port || node.name != configured.name {
          node := node.(port := configured.port);
          node := node.(name := configured.name);
          updates := updates + [node];
        }
      }
      assert pool[..|pool|] == pool;
      ok := true;
    }

    // No error means that the pool and the configuration are paired; where they were, nothing is written.
    method VerifyAppliedRuntime(check: CheckReplies) returns (ok: bool)
      requires Mirrored(store.nodes, store.table)
      modifies store
      ensures ok <==> Checks(old(store.nodes), config, check)
      ensures ok ==> Paired(store.nodes, config)
      ensures !ok || old(Paired(store.nodes, config)) ==> store.nodes == old(store.nodes)
      ensures store.nodes.Keys == old(store.nodes).Keys && PoolIds(store.nodes) == PoolIds(old(store.nodes))
      ensures SameOutside(store.nodes, old(store.nodes), PoolIds(old(store.nodes)))
      ensures Mirrored(store.nodes, store.table)
      ensures KeepsRefs(old(store.nodes), store.nodes)
    {
      hide *;
      MirroredIs(store.nodes, store.table);
      KeepsSame(store.nodes);
      SameAll(store.nodes, PoolIds(store.nodes));
      NotIndexed(store.nodes, config);
      ChecksIs(store.nodes, config, check);
      if !check.listening || !check.listed {
        return false;
      }
      var pool := ListPoolNodes();
      PoolListFacts(store.nodes, PoolIds(store.nodes), pool);
      if |config| != |pool| {
        return false;
      }
      var indexed, byRoute := Index(config);
      if !indexed {
        return false;
      }
      AgreesExactly(store.nodes, config, byRoute, pool);
      var synced, updates := Differing(pool, byRoute);
      if !synced {
        return false;
      }
      ghost var was := store.nodes;
      SyncingFacts(pool, byRoute, updates);
      NothingToSync(was, config, byRoute, pool, updates);
      if updates == [] {
        SyncedPairs(was, pool, config, byRoute, updates, 0);
        UpsertsNone(was, 0);
        AppliedNone(was);
        return true;
      }
      var now := Clock();
      SyncedPairs(was, pool, config, byRoute, updates, now);
      SyncedKeys(was, Applied(was, Upserts(was, updates, now)));
      SyncingKeeps(was, pool, byRoute, updates);
      KeepsUpserts(was, was, updates, now);
      ok := store.UpsertNodes(updates, now, check.syncs);
      if !ok {
        UpsertUndoneDistinct(was, updates, now);
        UndoesIs(was, Upserts(was, updates, now));
      }
    }

    // ---- promoteManyContext ----

    method ExistingKeys(listed: bool) returns (names: set<string>, routes: set<Route>)
      ensures names == ListedNames(config, listed) && routes == ListedRoutes(config, listed)
    {
      hide *;
      names, routes := {}, {};
      NothingKnown(config);
      if !listed {
        return;
      }
      for i := 0 to |config|
        invariant names == ListedNames(config[..i], true) && routes == ListedRoutes(config[..i], true)
      {
        assert config[..i + 1] == config[..i] + [config[i]];
        KnownStep(config[..i], config[i]);
        var name, uri := Trim(config[i].name), Trim(config[i].uri);
        if name != "" {
          names := names + {name};
        }
        if uri != "" {
          routes := routes + {Route(uri, config[i].chain)};
        }
      }
      assert config[..|config|] == config;
    }

    // DeleteNodes with its error ignored.
    method Forget(list: seq<string>, commits: bool, ghost was: NodeMap)
      requires Tame(was, store.nodes)
      modifies store
      ensures Tame(was, store.nodes) && SameOutside(store.nodes, old(store.nodes), Dropped(list, commits))
      ensures store.nodes.Keys == old(store.nodes).Keys - Dropped(list, commits)
      ensures old(Mirrored(store.nodes, store.table)) && (commits || NoRepeats(list)) ==> Mirrored(store.nodes, store.table)
    {
      hide *;
      ghost var before := store.nodes;
      if NoRepeats(list) {
        NoRepeatsNotTwice(before, list);
      }
      var ok := store.DeleteNodes(list, commits);
      TameDeleted(was, before, list, ok, store.nodes);
    }

    // Asks for one port after the other; a conflicting node is given up.
    method CreateOneByOne(nodes: seq<ManagedNode>, replies: JoinReplies, ghost joiners: seq<string>, ghost was: NodeMap)
      returns (ok: bool, ports: map<string, nat>)
      requires Tame(was, store.nodes) && |nodes| == |joiners| && forall k :: 0 <= k < |nodes| ==> nodes[k].id == joiners[k]
      modifies this`config, store
      ensures Tame(was, store.nodes) && SameOutside(store.nodes, old(store.nodes), Members(joiners))
      ensures ok <==> NoneRejected(joiners, |joiners|, replies)
      ensures ok ==> ports.Keys == CreatedIds(joiners, |joiners|, replies)
      ensures ok ==> store.nodes.Keys == old(store.nodes).Keys - RefusedIds(joiners, |joiners|, replies)
      ensures config == if nodes == [] then old(config) else replies.config
      ensures old(Mirrored(store.nodes, store.table)) ==> Mirrored(store.nodes, store.table)
    {
      hide *;
      ok, ports := true, map[];
      ghost var before := store.nodes;
      SameAll(before, Members(joiners));
      CreatedNone(joiners, replies);
      for i := 0 to |nodes|
        invariant Tame(was, store.nodes) && SameOutside(store.nodes, before, Members(joiners)) && NoneRejected(joiners, i, replies)
        invariant ports.Keys == CreatedIds(joiners, i, replies) && store.nodes.Keys == before.Keys - RefusedIds(joiners, i, replies)
        invariant config == if i == 0 then old(config) else replies.config
        invariant old(Mirrored(store.nodes, store.table)) ==> Mirrored(store.nodes, store.table)
      {
        CreatedStep(joiners, i, replies);
        config := replies.config;
        match replies.each(i)
        case Created(port) =>
          ports := ports[nodes[i].id := port];
        case Conflict =>
          ghost var mid := store.nodes;
          OneId(nodes[i].id, replies.forgets(i));
          InMembers(joiners, i);
          Forget([nodes[i].id], replies.forgets(i), was);
          SameThrough(store.nodes, mid, before, Dropped([nodes[i].id], replies.forgets(i)), Members(joiners));
        case Rejected =>
          return false, ports;
      }
    }

    // The ports of a batch: the i-th reply belongs to the i-th node, surplus replies are dropped.
    method BatchPorts(nodes: seq<ManagedNode>, created: seq<nat>, ghost joiners: seq<string>) returns (ports: map<string, nat>)
      requires |nodes| == |joiners| && forall k :: 0 <= k < |nodes| ==> nodes[k].id == joiners[k]
      ensures ports.Keys == Members(if |created| < |joiners| then joiners[..|created|] else joiners)
    {
      ports := map[];
      var i := 0;
      while i < |created| && i < |nodes|
        invariant i <= |nodes| && i <= |created| && ports.Keys == Members(joiners[..i])
      {
        assert joiners[..i + 1] == joiners[..i] + [joiners[i]];
        ports := ports[nodes[i].id := created[i]];
        i := i + 1;
      }
      assert joiners[..|joiners|] == joiners;
    }

    // Ports in a batch, or one after the other if there is no batch.
    method AskPorts(nodes: seq<ManagedNode>, replies: JoinReplies, ghost joiners: seq<string>, ghost was: NodeMap)
      returns (ok: bool, ports: map<string, nat>)
      requires nodes != [] && Tame(was, store.nodes) && |nodes| == |joiners| && forall k :: 0 <= k < |nodes| ==> nodes[k].id == joiners[k]
      modifies this`config, store
      ensures Tame(was, store.nodes) && SameOutside(store.nodes, old(store.nodes), Members(joiners))
      ensures ok <==> replies.batch.Some? || NoneRejected(joiners, |joiners|, replies)
      ensures ok ==> ports.Keys == PortIds(joiners, replies) && store.nodes.Keys == old(store.nodes).Keys - JoinOutcome.Refused(joiners, replies)
      ensures config == replies.config
      ensures old(Mirrored(store.nodes, store.table)) ==> Mirrored(store.nodes, store.table)
    {
      hide *;
      PortsAre(joiners, replies);
      match replies.batch {
        case Some(created) =>
          config := replies.config;
          SameAll(store.nodes, Members(joiners));
          ports := BatchPorts(nodes, created, joiners);
          ok := true;
        case None =>
          ok, ports := CreateOneByOne(nodes, replies, joiners, was);
      }
    }

    // Marks what was given a port as members.
    method MarkPorts(ports: map<string, nat>, marks: bool, ghost was: NodeMap, ghost ids: set<string>) returns (ok: bool, created: nat)
      requires Tame(was, store.nodes) && ports.Keys <= Joinable(was, ids)
      modifies store
      ensures ok <==> marks || ports.Keys * old(store.nodes).Keys == {}
      ensures ok ==> NewMembers(was, store.nodes) == ports.Keys * old(store.nodes).Keys && created == |ports.Keys * old(store.nodes).Keys|
      ensures !ok ==> created == 0
      ensures store.nodes.Keys == old(store.nodes).Keys && SameOutside(store.nodes, old(store.nodes), ports.Keys)
      ensures KeepsRefs(was, store.nodes) && Keyed(store.nodes)
      ensures old(Mirrored(store.nodes, store.table)) ==> Mirrored(store.nodes, store.table)
    {
      hide *;
      ghost var mid := store.nodes;
      TameIs(was, mid);
      NotListedYet(was, ids, ports.Keys);
      var order := AnyOrder(ports.Keys);
      var now := Clock();
      var marked, saved, top := store.MarkInPoolMany(ports, order, now, marks);
      MarkOutside(mid, ports, order, top, now, Applied(map[], Puts(marked)));
      MarkKeyed(mid, store.nodes, marked);
      KeepsMarked(mid, ports, order, top, now);
      KeepsSame(mid);
      NothingMarked(mid);
      KeepsThrough(was, mid, store.nodes);
      NewMarked(was, mid, ports, order, top, now);
      KeysCount(Marked(mid, ports, order, top, now));
      ok, created := saved, |marked|;
    }

    // Drops the duplicates and stores the nodes that join.
    method StoreJoining(ids: seq<string>, replies: JoinReplies) returns (ok: bool, nodes: seq<ManagedNode>)
      requires Keyed(store.nodes)
      modifies store
      ensures var m, routes := old(store.nodes), ListedRoutes(config, replies.listed);
              var joiners, duplicates := Joiners(m, ids, routes), Duplicates(m, ids, routes);
              && |nodes| == |joiners| && (forall k :: 0 <= k < |nodes| ==> nodes[k].id == joiners[k])
              && Tame(m, store.nodes) && SameOutside(store.nodes, m, Joinable(m, Members(ids)))
              && (ok ==> store.nodes.Keys == (m.Keys - Dropped(duplicates, replies.drops)) + Members(joiners))
      ensures ok <==> nodes == [] || replies.stores
      ensures old(Mirrored(store.nodes, store.table)) && (NoRepeats(ids) || (replies.drops && replies.stores)) ==> Mirrored(store.nodes, store.table)
    {
      hide *;
      ghost var was, all := store.nodes, Joinable(store.nodes, Members(ids));
      TameSame(was);
      var names, routes := ExistingKeys(replies.listed);
      var duplicates;
      nodes, duplicates := ChooseJoining(store.nodes, ids, names, routes);
      ghost var joiners := Joiners(was, ids, routes);
      TakenFacts(was, ids, routes);
      NamedFacts(was, joiners, names, nodes, Members(ids));
      DroppedWithin(duplicates, replies.drops);
      NothingDropped(replies.drops);
      NoIds();
      if duplicates != [] {
        Forget(duplicates, replies.drops, was);
      }
      SameWiden(store.nodes, was, Dropped(duplicates, replies.drops), all);
      if nodes == [] {
        return true, nodes;
      }
      ghost var mid := store.nodes;
      var now := Clock();
      AsStoredIs(was, nodes);
      ok := store.UpsertNodes(nodes, now, replies.stores);
      TameUpserted(was, mid, nodes, now, ok, store.nodes);
      SameThrough(store.nodes, mid, was, IdsOf(nodes), all);
    }

    // Which listed nodes become members and which are lost is decided by the replies.  Nothing else is
    // touched, however it ends.  Success reports as many nodes as have become members.
    method PromoteMany(ids: seq<string>, replies: JoinReplies) returns (ok: bool, created: nat)
      requires Keyed(store.nodes)
      modifies this`config, store
      ensures var m, routes := old(store.nodes), ListedRoutes(old(config), replies.listed);
              && (ok <==> JoinOk(m, ids, routes, replies))
              && (ok ==> store.nodes.Keys == m.Keys - Lost(m, ids, routes, replies))
              && (ok ==> NewMembers(m, store.nodes) == Ported(m, ids, routes, replies) && created == |Ported(m, ids, routes, replies)|)
              && SameOutside(store.nodes, m, Joinable(m, Members(ids))) && KeepsRefs(m, store.nodes)
              && config == if Asked(m, ids, routes, replies) then replies.config else old(config)
      ensures Keyed(store.nodes) && (!ok ==> created == 0)
      ensures old(Mirrored(store.nodes, store.table)) && (NoRepeats(ids) || (replies.drops && replies.stores)) ==> Mirrored(store.nodes, store.table)
    {
      hide *;
      ghost var was, all := store.nodes, Joinable(store.nodes, Members(ids));
      ghost var routes := ListedRoutes(config, replies.listed);
      ghost var joiners := Joiners(was, ids, routes);
      TameSame(was);
      TameIs(was, was);
      SameAll(was, all);
      JoinOkIs(was, ids, routes, replies);
      if ids == [] {
        return false, 0;
      }
      var nodes;
      ok, nodes := StoreJoining(ids, replies);
      TakenFacts(was, ids, routes);
      TameIs(was, store.nodes);
      JoinSets(was, ids, routes, replies);
      if !ok {
        return false, 0;
      }
      if nodes == [] {
        return true, 0;
      }
      ghost var mid := store.nodes;
      var ports: map<string, nat>;
      ok, ports := AskPorts(nodes, replies, joiners, was);
      SameThrough(store.nodes, mid, was, Members(joiners), all);
      TameIs(was, store.nodes);
      if !ok {
        return false, 0;
      }
      mid := store.nodes;
      ok, created := MarkPorts(ports, replies.marks, was, Members(ids));
      SameThrough(store.nodes, mid, was, ports.Keys, all);
    }

    // ---- ensurePoolRuntimeConsistency ----

    // Success is decided by the replies, the routes of the members and their ports.  Where pool and
    // configuration are paired and served nothing is changed; otherwise members are at most written
    // back under other names and ports.
    method EnsurePoolRuntimeConsistency(replies: EnsureReplies) returns (ok: bool)
      requires Mirrored(store.nodes, store.table)
      modifies this`config, store
      ensures Mirrored(store.nodes, store.table)
      ensures ok <==> Ensures(old(store.nodes), old(config), replies)
      ensures ok ==> Paired(store.nodes, config)
      ensures old(Paired(store.nodes, config)) && replies.check.listening && replies.check.listed ==>
                ok && store.nodes == old(store.nodes) && config == old(config)
      ensures PoolIds(store.nodes) == PoolIds(old(store.nodes)) && SameOutside(store.nodes, old(store.nodes), PoolIds(old(store.nodes)))
      ensures KeepsRefs(old(store.nodes), store.nodes) && store.nodes.Keys == old(store.nodes).Keys
    {
      hide *;
      ghost var was := store.nodes;
      ChecksPaired(store.nodes, config, replies.check);
      EnsuresIs(store.nodes, config, replies);
      ok := VerifyAppliedRuntime(replies.check);
      if ok {
        return;
      }
      MirroredIs(store.nodes, store.table);
      KeepsSame(was);
      SameAll(was, PoolIds(was));
      var pool := ListPoolNodes();
      PoolListFacts(was, PoolIds(was), pool);
      EmptyPool(was, pool);
      ok := RestoreConfigNodes(DesiredOf(pool), replies.restored);
      if !ok {
        return;
      }
      ghost var ports := replies.restored.ports;
      RestoredIs(DesiredOf(pool), replies.restored);
      if !replies.listed || |config| != |pool| {
        return false;
      }
      // The last of several configured nodes on one route counts.
      var byRoute: map<Route, ConfigNode> := map[];
      ghost var configured := config;
      IndexedNone(config);
      for i := 0 to |config|
        invariant config == configured && store.nodes == was && Mirrored(store.nodes, store.table)
        invariant DistinctRoutes(config) ==> Indexed(config[..i], byRoute)
      {
        if DistinctRoutes(config) {
          LastIndexed(config, byRoute, i);
        }
        byRoute := byRoute[ConfigRoute(config[i]) := config[i]];
      }
      assert config[..|config|] == config;
      DesiredDistinct(was, pool, ports);
      var updates: seq<ManagedNode> := [];
      AllSyncedNone(byRoute);
      for i := 0 to |pool|
        invariant AllSynced(pool[..i], byRoute, updates)
        invariant config == configured && store.nodes == was && Mirrored(store.nodes, store.table)
      {
        assert pool[..i + 1] == pool[..i] + [pool[i]];
        if DistinctRoutes(config) {
          RouteIndexed(pool, ports, byRoute, i);
        }
        if RouteOf(pool[i]) !in byRoute {
          return false;
        }
        AllSyncedStep(pool[..i], byRoute, updates, pool[i]);
        updates := updates + [Synced(pool[i], byRoute)];
      }
      assert pool[..|pool|] == pool;
      AllSyncedRefs(was, pool, byRoute, updates);
      var now := Clock();
      EnsuredChecks(was, pool, ports, byRoute, updates, now, replies.again);
      SyncedKeys(was, Applied(was, Upserts(was, updates, now)));
      KeepsUpserts(was, was, updates, now);
      UpsertsNone(was, now);
      AppliedNone(was);
      AllSyncedSize(pool, byRoute, updates);
      if updates != [] {
        ok := store.UpsertNodes(updates, now, replies.syncs);
        if !ok {
          UpsertUndoneDistinct(was, updates, now);
          UndoesIs(was, Upserts(was, updates, now));
          return;
        }
      }
      ghost var mid := store.nodes;
      ok := VerifyAppliedRuntime(replies.again);
      KeepsThrough(was, mid, store.nodes);
      SameThrough(store.nodes, mid, was, PoolIds(was), PoolIds(was));
    }

    // ---- applyStagedNodes ----

    // Collects the staging nodes under the ids they publish under; `crashed` where the source would
    // read the first of no references.
    method CollectStaged(nodeIds: seq<string>, stageMode: string, fallbackMode: string, route: (string, string) -> string)
      returns (crashed: bool, staged: NodeMap, stageIds: seq<string>)
      requires Keyed(store.nodes)
      ensures crashed <==> !Sourced(store.nodes, nodeIds, stageMode, fallbackMode)
      ensures !crashed ==> staged == StagedOf(store.nodes, nodeIds, stageMode, fallbackMode, route)
      ensures !crashed ==> |stageIds| <= |nodeIds| && (|stageIds| == |nodeIds| <==> AllUsable(store.nodes, nodeIds, stageMode))
      ensures !crashed && |stageIds| == |nodeIds| ==> stageIds == nodeIds
    {
      hide *;
      crashed, staged, stageIds := false, map[], [];
      ghost var m := store.nodes;
      StageNone(m, stageMode, fallbackMode, route);
      for i := 0 to |nodeIds|
        invariant Collected(m, nodeIds[..i], stageMode, fallbackMode, route, staged, stageIds)
      {
        StageStep(m, nodeIds, stageMode, fallbackMode, route, staged, stageIds, i);
        var id := nodeIds[i];
        if !Usable(store.nodes, id, stageMode) {
          continue;
        }
        var node := store.nodes[id];
        if !Publishable(node, fallbackMode) {
          return true, staged, stageIds;
        }
        stageIds := stageIds + [node.id];
        var key := route(node.uri, node.chainProfileId);
        staged := staged[key := Published(node, key, fallbackMode)];
      }
      assert nodeIds[..|nodeIds|] == nodeIds;
      StageDone(m, nodeIds, stageMode, fallbackMode, route, staged, stageIds);
    }

    // `preflightRuntimeNodes`: nodes the runtime cannot build are marked failed, and members among
    // them lose their port.
    method Preflight(plan: Plan, problem: ManagedNode -> Option<string>, now: nat) returns (checked: Plan)
      ensures checked.updates == CheckedAll(plan.updates, problem, now)
      ensures checked == plan.(updates := checked.updates, names := checked.names) && plan.names <= checked.names
      ensures forall name :: name in checked.names <==> name in plan.names || BreaksIn(plan.before, plan.updates, plan.updates.Keys, problem, name)
    {
      hide *;
      checked := plan;
      var todo := plan.updates.Keys;
      CheckNone(plan.updates, problem, now);
      BreaksNone(plan.before, plan.updates, problem);
      while todo != {}
        invariant todo <= plan.updates.Keys
        invariant checked.updates == CheckedBut(plan.updates, todo, problem, now)
        invariant checked == plan.(updates := checked.updates, names := checked.names) && plan.names <= checked.names
        invariant forall name :: name in checked.names <==>
                    name in plan.names || BreaksIn(plan.before, plan.updates, plan.updates.Keys - todo, problem, name)
        decreases |todo|
      {
        var id :| id in todo;
        CheckStep(plan.updates, todo, problem, now, id);
        BreaksStep(plan.before, plan.updates, todo, problem, id);
        var node := checked.updates[id];
        if Candidate(node) && problem(node).Some? {
          if id in plan.before && PoolMember(plan.before[id]) && Trim(plan.before[id].name) != "" {
            checked := checked.(names := checked.names + [plan.before[id].name]);
          }
          var text := problem(node).value;
          node := node.(state := Failed, inPool := false, port := 0);
          node := node.(lastError := text, updatedAt := now);
          checked := checked.(updates := checked.updates[id := node]);
        }
        todo := todo - {id};
      }
      assert plan.updates.Keys - {} == plan.updates.Keys;
      CheckDone(plan.updates, problem, now);
    }

    // ---- deleteConfigNodesStrict ----

    method DeleteNodes(names: seq<string>, saves: bool) returns (ok: bool)
      modifies this`config
      ensures ok <==> saves && Present(old(config), TrimmedNames(names))
      ensures config == if ok then Without(old(config), TrimmedNames(names)) else old(config)
    {
      hide *;
      WithoutExactly(config, TrimmedNames(names));
      PresentNone(config);
      var nameSet: set<string> := {};
      TrimmedNone();
      for i := 0 to |names|
        invariant nameSet == TrimmedNames(names[..i]) && config == old(config)
      {
        assert names[..i + 1] == names[..i] + [names[i]];
        TrimmedStep(names[..i], names[i]);
        var name := Trim(names[i]);
        if name != "" {
          nameSet := nameSet + {name};
        }
      }
      assert names[..|names|] == names;
      if nameSet == {} {
        return false;
      }
      var filtered: seq<ConfigNode> := [];
      WithoutNone(nameSet);
      for i := 0 to |config|
        invariant config == old(config) && filtered == Without(config[..i], nameSet)
      {
        WithoutStep(config, nameSet, i);
        if config[i].name in nameSet {
          continue;
        }
        filtered := filtered + [config[i]];
      }
      assert config[..|config|] == config;
      if |filtered| == |config| {
        return false;
      }
      if !saves {
        return false;
      }
      config := filtered;
      ok := true;
    }

    method DeleteConfigNodesStrict(names: seq<string>, saves: bool) returns (ok: bool)
      modifies this`config
      ensures ok <==> Removes(old(config), names, saves)
      ensures config == Remaining(old(config), names, saves)
    {
      hide *;
      RemovesIs(config, names, saves);
      var clean: seq<string> := [];
      TrimmedNone();
      for i := 0 to |names|
        invariant config == old(config) && forall name :: name in clean <==> name in TrimmedNames(names[..i])
      {
        assert names[..i + 1] == names[..i] + [names[i]];
        TrimmedStep(names[..i], names[i]);
        var name := Trim(names[i]);
        if name == "" || name in clean {
          continue;
        }
        clean := clean + [name];
      }
      assert names[..|names|] == names;
      TrimmedClean(names, clean);
      if clean == [] {
        return true;
      }
      ok := DeleteNodes(clean, saves);
    }

    // The way back: stored nodes as they were, new ones deleted, the configuration restored; each half
    // whatever becomes of the other.
    method Rollback(plan: Plan, configBefore: seq<ConfigNode>, restores: bool, reply: RestoreReply, ghost m0: NodeMap)
      returns (outcome: Outcome, ghost back: nat)
      requires Mirrored(store.nodes, store.table) && Keyed(m0)
      requires plan.before == Restrict(m0, plan.touched) && SameOutside(store.nodes, m0, plan.touched)
      modifies this`config, store
      ensures Mirrored(store.nodes, store.table)
      ensures outcome == if restores && reply.Restores? then RolledBack else RollbackFailed
      ensures if restores then BackTo(m0, store.nodes, back) else store.nodes == old(store.nodes)
      ensures config == RestoredTo(configBefore, reply)
    {
      hide *;
      var keys := AnyOrder(plan.before.Keys);
      EnumeratesIn(keys, plan.before.Keys);
      var upserts := Values(plan.before, keys);
      var deletes := AnyOrder(plan.touched - plan.before.Keys);
      ghost var was := store.nodes;
      var now := Clock();
      RestrictKeyed(m0, plan.touched);
      ValuesDistinctIds(plan.before, keys);
      var restored := store.ApplyNodeChanges(upserts, deletes, now, restores);
      BackIs(was, m0, plan.touched, keys, deletes, now);
      ChangesUndone(was, upserts, deletes, now);
      var reconfigured := RestoreConfigNodes(configBefore, reply);
      outcome := if restored && reconfigured then RolledBack else RollbackFailed;
      back := now;
    }

    method TriggerReload(reply: ReloadReply) returns (ok: bool)
      modifies this`config
      ensures ok == reply.ok && config == reply.config
    {
      config := reply.config;
      ok := reply.ok;
    }

    method ReloadAndVerify(reply: ReloadReply, check: CheckReplies) returns (ok: bool)
      requires Mirrored(store.nodes, store.table)
      modifies this`config, store
      ensures config == reply.config
      ensures ok <==> reply.ok && Checks(old(store.nodes), reply.config, check)
      ensures ok ==> Paired(store.nodes, config)
      ensures !ok ==> store.nodes == old(store.nodes)
      ensures store.nodes.Keys == old(store.nodes).Keys && PoolIds(store.nodes) == PoolIds(old(store.nodes))
      ensures SameOutside(store.nodes, old(store.nodes), PoolIds(old(store.nodes)))
      ensures Mirrored(store.nodes, store.table)
      ensures KeepsRefs(old(store.nodes), store.nodes)
    {
      hide *;
      KeepsSame(store.nodes);
      SameAll(store.nodes, PoolIds(store.nodes));
      ok := TriggerReload(reply);
      if ok {
        ok := VerifyAppliedRuntime(check);
      }
    }

    // Stores the change set and tells which nodes are ready to join.
    method Commit(plan: Plan, stageIds: seq<string>, commits: bool) returns (ok: bool, passedIds: seq<string>, ghost keys: seq<string>, ghost at: nat)
      requires Mirrored(store.nodes, store.table) && Keyed(plan.updates)
      requires plan.updates.Keys <= plan.touched && Members(plan.deleted) <= plan.touched && Members(stageIds) <= plan.touched
      modifies store
      ensures Mirrored(store.nodes, store.table) && ok == commits
      ensures Enumerates(keys, plan.updates.Keys) && forall id :: id in keys ==> id in plan.updates
      ensures Enumerates(passedIds, ReadyIds(plan.updates)) && NoRepeats(passedIds) && Members(passedIds) <= plan.touched
      ensures ok ==> store.nodes == Changed(old(store.nodes), Values(plan.updates, keys), plan.deleted + stageIds, at)
      ensures SameOutside(store.nodes, old(store.nodes), plan.touched)
    {
      hide *;
      ghost var was := store.nodes;
      var order := AnyOrder(plan.updates.Keys);
      keys := order;
      EnumeratesIn(keys, plan.updates.Keys);
      var updateList := Values(plan.updates, order);
      ValuesDistinctIds(plan.updates, keys);
      passedIds := PassedIds(updateList);
      PassedIdsReady(plan.updates, keys, passedIds);
      ReadyWithin(plan.updates);
      MembersConcat(plan.deleted, stageIds);
      var now := Clock();
      at := now;
      ok := store.ApplyNodeChanges(updateList, plan.deleted + stageIds, now, commits);
      ChangesWithin(was, plan.updates, keys, plan.deleted + stageIds, now, ok, store.nodes, plan.touched);
    }

    // Everything between the plan and success; a false result asks for the way back.  Success is decided
    // by the replies, and so is which of the committed nodes are there in the end: all but those gone.
    method Carry(plan: Plan, stageIds: seq<string>, promote: bool, replies: ImportReplies)
      returns (ok: bool, created: nat, ghost course: Course, ghost keys: seq<string>, ghost at: nat)
      requires Mirrored(store.nodes, store.table) && Keyed(plan.updates)
      requires plan.updates.Keys <= plan.touched && Members(plan.deleted) <= plan.touched && Members(stageIds) <= plan.touched
      modifies this`config, store
      ensures Mirrored(store.nodes, store.table)
      ensures course.m0 == old(store.nodes) && course.c0 == old(config) && course.leaving == plan.names
      ensures ok <==> Goes(course, replies, promote)
      ensures ok ==> Paired(store.nodes, config)
      ensures !ok ==> SameOutside(store.nodes, old(store.nodes), plan.touched)
      ensures Stores(course, replies) ==> Enumerates(keys, plan.updates.Keys) && (forall id :: id in keys ==> id in plan.updates)
      ensures Stores(course, replies) ==> course.committed == Changed(old(store.nodes), Values(plan.updates, keys), plan.deleted + stageIds, at)
      ensures Stores(course, replies) ==> Enumerates(course.passed, ReadyIds(plan.updates))
      ensures Joins(course, replies, promote) ==> JoinedFrom(course, replies, promote)
      ensures ok ==> Kept(course, replies, promote, store.nodes) && created == |Entered(course, replies, promote)|
    {
      hide *;
      ok, created, keys, at := true, 0, [], 0;
      ghost var was := store.nodes;
      course := Course(was, config, plan.names, was, [], was);
      SameAll(was, plan.touched);
      GoesIs(course, replies, promote);
      if plan.names != [] {
        ok := DeleteConfigNodesStrict(plan.names, replies.saves);
        if !ok {
          return;
        }
      }
      var passedIds;
      ok, passedIds, keys, at := Commit(plan, stageIds, replies.commits);
      if !ok {
        return;
      }
      ghost var committed := store.nodes;
      MirroredIs(store.nodes, store.table);
      course := Course(was, old(config), plan.names, committed, passedIds, committed);
      GoesIs(course, replies, promote);
      TameSame(committed);
      TameIs(committed, committed);
      ghost var joinable := Joinable(committed, Members(passedIds));
      SameAll(committed, joinable);
      if promote && passedIds != [] {
        ok, created := PromoteMany(passedIds, replies.joining);
        JoinableIs(committed, Members(passedIds), joinable);
        Widen(store.nodes, committed, joinable, plan.touched);
        SameThrough(store.nodes, committed, was, plan.touched, plan.touched);
        if !ok {
          return;
        }
      }
      ghost var joined := store.nodes;
      course := course.(joined := joined);
      GoesIs(course, replies, promote);
      JoinedIs(course, replies, promote);
      if plan.names != [] || created > 0 {
        ok := ReloadAndVerify(replies.reload, replies.check);
      } else {
        ok := VerifyAppliedRuntime(replies.check);
      }
      KeepsThrough(committed, joined, store.nodes);
      if ok {
        KeptIs(course, replies, promote, store.nodes, joined);
      }
    }

    // Success and failure of the whole import, and what each leaves behind.
    method ApplyStagedNodes(nodeIds: seq<string>, stageMode: string, fallbackMode: string, route: (string, string) -> string,
                            matches: SourceRef -> bool, problem: ManagedNode -> Option<string>, promote: bool, replies: ImportReplies)
      returns (outcome: Outcome, ghost course: Course, ghost back: nat)
      requires Mirrored(store.nodes, store.table) && StageMode(stageMode) && ByIdentity(matches)
      modifies this`config, store
      ensures Mirrored(store.nodes, store.table)
      ensures outcome == NotStarted <==> !(replies.current && Ensures(old(store.nodes), old(config), replies.ensured) && replies.listed)
      ensures outcome != NotStarted ==>
                KeepsRefs(old(store.nodes), course.m0) && course.m0.Keys == old(store.nodes).Keys
                && SameOutside(course.m0, old(store.nodes), PoolIds(old(store.nodes)))
      ensures old(Paired(store.nodes, config)) && replies.current && replies.ensured.check.listening && replies.ensured.check.listed && replies.listed ==>
                outcome != NotStarted && course.m0 == old(store.nodes) && course.c0 == old(config)
      ensures outcome != NotStarted ==> Paired(course.m0, course.c0) && Keyed(course.m0)
      ensures outcome == Refused || outcome == Crashed ==> store.nodes == course.m0 && config == course.c0
      ensures outcome == Crashed <==> outcome != NotStarted && !Sourced(course.m0, nodeIds, stageMode, fallbackMode)
      ensures outcome == Refused <==> outcome != NotStarted && outcome != Crashed && !AllUsable(course.m0, nodeIds, stageMode)
      ensures outcome == RolledBack <==>
                outcome != NotStarted && outcome != Crashed && outcome != Refused && !Goes(course, replies, promote)
                && replies.restores && replies.restored.Restores?
      ensures outcome == RolledBack || outcome == RollbackFailed ==>
                && (replies.restores ==> BackTo(course.m0, store.nodes, back))
                && (!replies.restores ==>
                      SameOutside(store.nodes, course.m0,
                                  Touched(course.m0, nodeIds, StagedOf(course.m0, nodeIds, stageMode, fallbackMode, route), matches)))
                && config == RestoredTo(course.c0, replies.restored)
      ensures outcome == RolledBack && replies.restored.ports.None? ==> config == course.c0
      ensures outcome == RolledBack ==> (Paired(store.nodes, config) <==> MembersStay(store.nodes, course.c0, config))
      ensures outcome.Done? <==> outcome != NotStarted && outcome != Crashed && outcome != Refused && Goes(course, replies, promote)
      ensures outcome.Done? || outcome == RolledBack || outcome == RollbackFailed ==>
                forall name {:trigger name in course.leaving} :: name in course.leaving <==>
                  Leaves(course.m0, StagedOf(course.m0, nodeIds, stageMode, fallbackMode, route), matches, problem, name)
      ensures outcome.Done? ==> Paired(store.nodes, config) && outcome.created == |Entered(course, replies, promote)|
      ensures outcome.Done? || outcome == RolledBack || outcome == RollbackFailed ==>
                && (Stores(course, replies) ==>
                      ImportedFrom(course, nodeIds, StagedOf(course.m0, nodeIds, stageMode, fallbackMode, route), matches, problem))
                && (Joins(course, replies, promote) ==> JoinedFrom(course, replies, promote))
      ensures outcome.Done? ==> Kept(course, replies, promote, store.nodes)
    {
      hide *;
      back := 0;
      course := Course(store.nodes, config, [], store.nodes, [], store.nodes);
      if !replies.current {
        return NotStarted, course, back;
      }
      var consistent := EnsurePoolRuntimeConsistency(replies.ensured);
      if !consistent || !replies.listed {
        return NotStarted, course, back;
      }
      var configBefore := config;
      ghost var m0, c0 := store.nodes, config;
      course := Course(m0, c0, [], m0, [], m0);
      MirroredIs(store.nodes, store.table);
      var crashed, staged, stageIds := CollectStaged(nodeIds, stageMode, fallbackMode, route);
      if crashed {
        return Crashed, course, back;
      }
      if |stageIds| != |nodeIds| {
        return Refused, course, back;
      }
      var listing := AnyOrder(store.nodes.Keys);
      StagedOfFacts(m0, nodeIds, stageMode, fallbackMode, route);
      StageIdsStaging(m0, nodeIds, stageMode);
      var plan := PlanChanges(store.nodes, listing, stageIds, staged, matches);
      ghost var planned := plan;
      var now := Clock();
      plan := Preflight(plan, problem, now);
      PlanWithin(m0, listing, stageIds, staged, matches, problem, now);
      LeavesIs(m0, listing, stageIds, staged, matches, problem, planned.before, plan.names);
      ghost var keys: seq<string>, at: nat;
      var ok: bool, created: nat;
      ok, created, course, keys, at := Carry(plan, stageIds, promote, replies);
      if Stores(course, replies) {
        ImportedIs(course, stageIds, staged, matches, problem, now, listing, keys, at);
      }
      GoesJoins(course, replies, promote);
      if ok {
        return Done(created), course, back;
      }
      outcome, back := Rollback(plan, configBefore, replies.restores, replies.restored, m0);
      RestoredIs(c0, replies.restored);
      if replies.restores {
        BackPaired(m0, store.nodes, c0, back);
        RestoredPaired(store.nodes, c0, replies.restored);
      }
    }

    method PassedIds(list: seq<ManagedNode>) returns (ids: seq<string>)
      requires DistinctIds(list)
      ensures NoRepeats(ids)
      ensures forall id {:trigger id in ids} :: id in ids <==> exists i :: 0 <= i < |list| && list[i].id == id && list[i].state == Passed && !list[i].inPool
    {
      ids := [];
      for i := 0 to |list|
        invariant NoRepeats(ids)
        invariant forall id {:trigger id in ids} :: id in ids <==>
                    exists j :: 0 <= j < i && list[j].id == id && list[j].state == Passed && !list[j].inPool
      {
        if list[i].state == Passed && !list[i].inPool {
          forall j | 0 <= j < |ids| ensures ids[j] != list[i].id { assert ids[j] in ids; }
          ids := ids + [list[i].id];
        }
      }
    }
  }
}

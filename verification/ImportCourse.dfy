/**
  The course of a staged import: what the node manager and the table reply, which steps succeed on
  these replies, and the small facts the steps rest on.
 */
module ImportCourse {
  import opened SourceRefs
  import opened Nodes
  import opened Options
  import opened Orders
  import opened StoreModel
  import opened StoreWrites
  import opened StorePool
  import opened StoreUndo
  import opened ChangeSet
  import opened StagedPlan
  import opened StagedExact
  import opened RuntimePairing
  import opened PoolJoin
  import opened JoinOutcome
  import opened RefsKept
  import opened ConfigNodes

  // ---- the replies ----

  // Whether the ports are served, the configured nodes can be listed, and new ports can be stored.
  datatype CheckReplies = CheckReplies(listening: bool, listed: bool, syncs: bool)

  datatype ReloadReply = ReloadReply(ok: bool, config: seq<ConfigNode>)

  // Restoring configured nodes leaves them, on ports given anew if there are any, or fails and leaves
  // any configuration behind.
  datatype RestoreReply = Restores(ports: Option<seq<nat>>) | RestoreFails(config: seq<ConfigNode>)

  // A first check, and if it finds fault: the pool restored as configuration and read back, its ports
  // and names stored, and a second check.
  datatype EnsureReplies = EnsureReplies(check: CheckReplies, restored: RestoreReply, listed: bool, syncs: bool, again: CheckReplies)

  // In the order they are asked for: whether the import is still wanted, the agreement of pool and
  // configuration, whether the configuration can be read, the removal of configured nodes saved and
  // the change set stored; then joining the pool, the reload and the last check; and for the way back
  // the nodes stored and the configuration restored.
  datatype ImportReplies = ImportReplies(
    current: bool, ensured: EnsureReplies, listed: bool, saves: bool, commits: bool,
    joining: JoinReplies, reload: ReloadReply, check: CheckReplies, restores: bool, restored: RestoreReply)

  function RestoredTo(nodes: seq<ConfigNode>, reply: RestoreReply): seq<ConfigNode> {
    match reply case Restores(ports) => WithPorts(nodes, ports) case RestoreFails(config) => config
  }

  // When the check of the running configuration finds no fault.
  ghost predicate Checks(m: NodeMap, config: seq<ConfigNode>, check: CheckReplies) {
    check.listening && check.listed && Agrees(m, config) && (check.syncs || Paired(m, config))
  }

  // When pool and configuration are made to agree: they do, or restoring the pool succeeds, no two
  // members share a route, and all have a port, their own or one given anew.
  ghost predicate Ensures(m: NodeMap, config: seq<ConfigNode>, r: EnsureReplies) {
    || Checks(m, config, r.check)
    || (&& r.restored.Restores? && r.listed && PoolRoutesDistinct(m) && PortsGiven(m, r.restored.ports)
        && (PoolIds(m) == {} || r.syncs) && r.again.listening && r.again.listed)
  }

  // ---- the course of an import ----

  // The store and configuration it starts from, the configured names it removes, the store it commits,
  // the nodes it passes to the pool, and the store when they have joined.
  datatype Course = Course(m0: NodeMap, c0: seq<ConfigNode>, leaving: seq<string>, committed: NodeMap, passed: seq<string>, joined: NodeMap)

  function ConfigAtJoining(course: Course, replies: ImportReplies): seq<ConfigNode> {
    if course.leaving == [] then course.c0 else Remaining(course.c0, course.leaving, replies.saves)
  }

  function RoutesAtJoining(course: Course, replies: ImportReplies): set<Route> {
    ListedRoutes(ConfigAtJoining(course, replies), replies.joining.listed)
  }

  // The nodes that have become members.
  function Entered(course: Course, replies: ImportReplies, promote: bool): set<string> {
    if promote then Ported(course.committed, course.passed, RoutesAtJoining(course, replies), replies.joining) else {}
  }

  // The nodes that are gone although they were committed.
  function Gone(course: Course, replies: ImportReplies, promote: bool): set<string> {
    if promote then Lost(course.committed, course.passed, RoutesAtJoining(course, replies), replies.joining) else {}
  }

  function ConfigAtCheck(course: Course, replies: ImportReplies, promote: bool): seq<ConfigNode> {
    if course.leaving != [] || Entered(course, replies, promote) != {} then replies.reload.config
    else if promote && Asked(course.committed, course.passed, RoutesAtJoining(course, replies), replies.joining) then replies.joining.config
    else ConfigAtJoining(course, replies)
  }

  // The steps that may fail, in their order: the change set is stored, the nodes join, and the running
  // configuration is as it should be.
  ghost predicate Stores(course: Course, replies: ImportReplies) {
    (course.leaving != [] ==> Removes(course.c0, course.leaving, replies.saves)) && replies.commits
  }

  ghost predicate Joins(course: Course, replies: ImportReplies, promote: bool) {
    && Stores(course, replies)
    && (promote && course.passed != [] ==> JoinOk(course.committed, course.passed, RoutesAtJoining(course, replies), replies.joining))
  }

  ghost predicate Goes(course: Course, replies: ImportReplies, promote: bool) {
    && Joins(course, replies, promote)
    && (course.leaving != [] || Entered(course, replies, promote) != {} ==> replies.reload.ok)
    && Checks(course.joined, ConfigAtCheck(course, replies, promote), replies.check)
  }

  // A node the runtime can build that passed and is in no pool.
  predicate Passes(node: ManagedNode, problem: ManagedNode -> Option<string>) {
    node.state == Passed && !node.inPool && problem(node).None?
  }

  function PassedOf(updates: NodeMap, problem: ManagedNode -> Option<string>): set<string> {
    set id | id in updates && Passes(updates[id], problem)
  }

  function ReadyIds(updates: NodeMap): set<string> {
    set id | id in updates && updates[id].state == Passed && !updates[id].inPool
  }

  // A node that cannot be built, and was a member under this name.
  predicate Breaks(before: NodeMap, updates: NodeMap, problem: ManagedNode -> Option<string>, id: string, name: string) {
    && id in updates && Candidate(updates[id]) && problem(updates[id]).Some?
    && id in before && PoolMember(before[id]) && before[id].name == name && Trim(name) != ""
  }

  ghost predicate BreaksIn(before: NodeMap, updates: NodeMap, done: set<string>, problem: ManagedNode -> Option<string>, name: string) {
    exists id :: id in done && Breaks(before, updates, problem, id, name)
  }

  // A member under this name leaves the pool: its references were replaced by a publication that
  // failed or by none, or what replaces it cannot be built.
  ghost predicate Leaves(m: NodeMap, staged: NodeMap, matches: SourceRef -> bool, problem: ManagedNode -> Option<string>, name: string) {
    exists id :: id in m && m[id].name == name
                 && (LeavesPool(m[id], staged, matches) || Breaks(m, Updates(m, staged, matches), problem, id, name))
  }

  // What is committed and passed on, for these staged nodes.
  ghost predicate ImportedFrom(course: Course, stageIds: seq<string>, staged: NodeMap, matches: SourceRef -> bool,
                               problem: ManagedNode -> Option<string>) {
    && CommittedFrom(course.m0, stageIds, staged, matches, problem, course.committed)
    && Enumerates(course.passed, PassedOf(Updates(course.m0, staged, matches), problem))
  }

  // The store when the nodes have joined, against what was committed.
  ghost predicate JoinedFrom(course: Course, replies: ImportReplies, promote: bool) {
    && KeepsRefs(course.committed, course.joined)
    && course.joined.Keys == course.committed.Keys - Gone(course, replies, promote)
    && NewMembers(course.committed, course.joined) == Entered(course, replies, promote)
    && SameOutside(course.joined, course.committed, Joinable(course.committed, Members(course.passed)))
  }

  // Against what was committed: the same references, the same nodes but those gone, and no change but
  // to nodes that could join and to members.
  ghost predicate Kept(course: Course, replies: ImportReplies, promote: bool, final: NodeMap) {
    && KeepsRefs(course.committed, final)
    && final.Keys == course.committed.Keys - Gone(course, replies, promote)
    && SameOutside(final, course.committed, Joinable(course.committed, Members(course.passed)) + PoolIds(final))
  }

  // ---- the replies, step by step ----

  lemma ChecksIs(m: NodeMap, config: seq<ConfigNode>, check: CheckReplies)
    ensures Checks(m, config, check) <==> check.listening && check.listed && Agrees(m, config) && (check.syncs || Paired(m, config))
  {
    hide Agrees, Paired;
  }

  lemma ChecksPaired(m: NodeMap, config: seq<ConfigNode>, check: CheckReplies)
    ensures Paired(m, config) && check.listening && check.listed ==> Checks(m, config, check)
  {
    hide Agrees, Paired;
    if Paired(m, config) {
      PairedAgrees(m, config);
    }
  }

  lemma EnsuresIs(m: NodeMap, config: seq<ConfigNode>, r: EnsureReplies)
    ensures Ensures(m, config, r) <==>
            || Checks(m, config, r.check)
            || (&& r.restored.Restores? && r.listed && PoolRoutesDistinct(m) && PortsGiven(m, r.restored.ports)
                && (PoolIds(m) == {} || r.syncs) && r.again.listening && r.again.listed)
  {
    hide Checks, PoolRoutesDistinct, PortsGiven, PoolIds;
  }

  // The second check, after the members were written back.
  lemma EnsuredChecks(m: NodeMap, pool: seq<ManagedNode>, ports: Option<seq<nat>>, byRoute: map<Route, ConfigNode>,
                      updates: seq<ManagedNode>, now: nat, again: CheckReplies)
    requires Keyed(m) && PoolList(m, PoolIds(m), pool) && AllSynced(pool, byRoute, updates) && DistinctIds(updates)
    requires var config := WithPorts(DesiredOf(pool), ports); DistinctRoutes(config) ==> Indexed(config, byRoute)
    ensures var after := Applied(m, Upserts(m, updates, now));
            && (Checks(after, WithPorts(DesiredOf(pool), ports), again) <==>
                  again.listening && again.listed && PoolRoutesDistinct(m) && PortsGiven(m, ports))
            && PoolIds(after) == PoolIds(m) && (forall id :: id !in PoolIds(m) ==> Get(after, id) == Get(m, id))
  {
    hide Applied, Upserts, AllSynced, Indexed, WithPorts, DesiredOf, PortsGiven, PoolRoutesDistinct, Agrees, Paired, PoolIds, PoolList;
    DesiredAgrees(m, pool, ports);
    AllSyncedAgrees(m, pool, WithPorts(DesiredOf(pool), ports), byRoute, updates, now);
  }

  lemma AllSyncedRefs(m: NodeMap, pool: seq<ManagedNode>, byRoute: map<Route, ConfigNode>, updates: seq<ManagedNode>)
    requires PoolList(m, PoolIds(m), pool) && AllSynced(pool, byRoute, updates)
    ensures DistinctIds(updates)
    ensures forall node {:trigger node in updates} :: node in updates ==> node.id in m && NodeRefs(node) == NodeRefs(m[node.id])
  {
    hide NodeRefs;
    forall i | 0 <= i < |pool| ensures pool[i].id in m && NodeRefs(updates[i]) == NodeRefs(m[pool[i].id]) && updates[i].id == pool[i].id {
      assert pool[i] in pool;
      SyncedRefs(pool[i], byRoute);
    }
    forall node {:trigger node in updates} | node in updates ensures node.id in m && NodeRefs(node) == NodeRefs(m[node.id]) {
      var i :| 0 <= i < |updates| && updates[i] == node;
      assert pool[i].id in m;
    }
  }

  lemma RestoredPaired(m: NodeMap, config: seq<ConfigNode>, reply: RestoreReply)
    requires Paired(m, config)
    ensures reply.Restores? ==> (Paired(m, RestoredTo(config, reply)) <==> MembersStay(m, config, RestoredTo(config, reply)))
    ensures reply.Restores? && reply.ports.None? ==> Paired(m, RestoredTo(config, reply))
  {
    hide Paired, MembersStay;
    if reply.Restores? { PortsPaired(m, config, reply.ports); }
  }

  lemma RestoredIs(nodes: seq<ConfigNode>, reply: RestoreReply)
    ensures reply.Restores? ==> RestoredTo(nodes, reply) == WithPorts(nodes, reply.ports)
    ensures reply.Restores? && reply.ports.None? ==> RestoredTo(nodes, reply) == nodes
  {
  }

  lemma AllSyncedSize(pool: seq<ManagedNode>, byRoute: map<Route, ConfigNode>, updates: seq<ManagedNode>)
    requires AllSynced(pool, byRoute, updates)
    ensures |updates| == |pool|
  {
  }

  lemma EmptyPool(m: NodeMap, pool: seq<ManagedNode>)
    requires PoolList(m, PoolIds(m), pool)
    ensures pool == [] <==> PoolIds(m) == {}
  {
  }

  lemma AllSyncedNone(byRoute: map<Route, ConfigNode>)
    ensures AllSynced([], byRoute, [])
  {
  }

  lemma AllSyncedStep(pool: seq<ManagedNode>, byRoute: map<Route, ConfigNode>, updates: seq<ManagedNode>, node: ManagedNode)
    requires AllSynced(pool, byRoute, updates) && RouteOf(node) in byRoute
    ensures AllSynced(pool + [node], byRoute, updates + [Synced(node, byRoute)])
  {
  }

  lemma IndexedNone(config: seq<ConfigNode>)
    ensures Indexed(config[..0], map[])
  {
  }

  lemma NeededNone(byRoute: map<Route, ConfigNode>)
    ensures Needed([], byRoute, [])
  {
  }

  lemma NeededStep(pool: seq<ManagedNode>, byRoute: map<Route, ConfigNode>, updates: seq<ManagedNode>, node: ManagedNode)
    requires Needed(pool, byRoute, updates) && RouteOf(node) in byRoute
    ensures Needed(pool + [node], byRoute, if Synced(node, byRoute) == node then updates else updates + [Synced(node, byRoute)])
  {
    if Synced(node, byRoute) != node {
      assert node in pool + [node];
    } else if updates != [] {
      var n :| n in pool && RouteOf(n) in byRoute && Synced(n, byRoute) != n;
      assert n in pool + [node];
    }
  }

  lemma SyncedKeys(m: NodeMap, after: NodeMap)
    requires PoolIds(after) == PoolIds(m) && forall id :: id !in PoolIds(m) ==> Get(after, id) == Get(m, id)
    ensures after.Keys == m.Keys && SameOutside(after, m, PoolIds(m))
  {
    forall id ensures id in after <==> id in m {
      if id in PoolIds(m) {
        assert id in PoolIds(after);
      } else {
        assert Get(after, id) == Get(m, id);
      }
    }
  }

  lemma NothingKnown(config: seq<ConfigNode>)
    ensures ListedNames(config, false) == {} && ListedRoutes(config, false) == {}
    ensures ListedNames(config[..0], true) == {} && ListedRoutes(config[..0], true) == {}
  {
  }

  lemma KnownStep(config: seq<ConfigNode>, node: ConfigNode)
    ensures ListedNames(config + [node], true) == ListedNames(config, true) + if Trim(node.name) != "" then {Trim(node.name)} else {}
    ensures ListedRoutes(config + [node], true) ==
            ListedRoutes(config, true) + if Trim(node.uri) != "" then {Route(Trim(node.uri), node.chain)} else {}
  {
    hide Trim;
    assert forall n :: n in config + [node] <==> n in config || n == node;
  }

  lemma InMembers(ids: seq<string>, i: nat)
    requires i < |ids|
    ensures {ids[i]} <= Members(ids) && {} <= Members(ids)
  {
  }

  lemma JoinOkIs(m: NodeMap, ids: seq<string>, routes: set<Route>, replies: JoinReplies)
    ensures var joiners := Joiners(m, ids, routes);
            && (Asked(m, ids, routes, replies) <==> joiners != [] && replies.stores)
            && (ids == [] ==> joiners == [])
            && (JoinOk(m, ids, routes, replies) <==>
                  ids != [] && (joiners != [] ==>
                                  replies.stores && (replies.batch.Some? || NoneRejected(joiners, |joiners|, replies))
                                  && (replies.marks || Ported(m, ids, routes, replies) == {})))
  {
    hide Joiners, Ported, NoneRejected;
    if ids == [] {
      NothingListed(m, routes);
    }
  }

  // What is lost and what is ported, from what is stored before ports are asked for.
  lemma JoinSets(m: NodeMap, ids: seq<string>, routes: set<Route>, replies: JoinReplies)
    requires Members(Joiners(m, ids, routes)) <= Joinable(m, Members(ids))
    ensures var joiners := Joiners(m, ids, routes);
            var stored := (m.Keys - Dropped(Duplicates(m, ids, routes), replies.drops)) + Members(joiners);
            && stored - JoinOutcome.Refused(joiners, replies) == m.Keys - Lost(m, ids, routes, replies)
            && PortIds(joiners, replies) * (stored - JoinOutcome.Refused(joiners, replies)) == Ported(m, ids, routes, replies)
            && (joiners == [] ==> stored == m.Keys - Lost(m, ids, routes, replies) && Ported(m, ids, routes, replies) == {})
            && PortIds(joiners, replies) <= Members(joiners)
            && |Ported(m, ids, routes, replies)| == |PortIds(joiners, replies) * (stored - JoinOutcome.Refused(joiners, replies))|
  {
    hide Joiners, Duplicates, JoinOutcome.Refused, PortIds, Members, Dropped, Joinable;
    var joiners, dropped := Joiners(m, ids, routes), Dropped(Duplicates(m, ids, routes), replies.drops);
    PortsWithin(joiners, replies);
    JoinableWithin(m, Members(ids));
    NoIds();
    JoinKeys(m.Keys, dropped, Members(joiners), JoinOutcome.Refused(joiners, replies), PortIds(joiners, replies));
  }

  lemma JoinableWithin(m: NodeMap, ids: set<string>)
    ensures Joinable(m, ids) <= m.Keys
  {
  }

  lemma NoIds()
    ensures Members([]) == {}
  {
  }

  lemma NothingDropped(commits: bool)
    ensures Dropped([], commits) == {}
  {
  }

  lemma TakenFacts(m: NodeMap, ids: seq<string>, routes: set<Route>)
    ensures forall id :: id in Joiners(m, ids, routes) ==> id in m && id in Joinable(m, Members(ids))
    ensures Members(Joiners(m, ids, routes)) <= Joinable(m, Members(ids)) && Members(Duplicates(m, ids, routes)) <= Joinable(m, Members(ids))
    ensures NoRepeats(ids) ==> NoRepeats(Joiners(m, ids, routes)) && NoRepeats(Duplicates(m, ids, routes))
  {
    hide Joiners, Duplicates;
    JoinersOrDuplicates(m, ids, routes);
  }

  lemma PortsAre(joiners: seq<string>, replies: JoinReplies)
    ensures JoinOutcome.Refused(joiners, replies) == if replies.batch.Some? then {} else RefusedIds(joiners, |joiners|, replies)
    ensures PortIds(joiners, replies) ==
            if replies.batch.Some? then Members(if |replies.batch.value| < |joiners| then joiners[..|replies.batch.value|] else joiners)
            else CreatedIds(joiners, |joiners|, replies)
  {
    hide CreatedIds, RefusedIds, Members;
  }

  lemma JoinKeys(was: set<string>, dropped: set<string>, joiners: set<string>, refused: set<string>, ports: set<string>)
    requires joiners <= was && ports <= joiners && refused <= joiners
    ensures ((was - dropped) + joiners) - refused == was - ((dropped - joiners) + refused)
    ensures ports * (((was - dropped) + joiners) - refused) == ports - refused
  {
  }

  lemma SameWiden(a: NodeMap, b: NodeMap, some: set<string>, ids: set<string>)
    requires SameOutside(a, b, some) || a == b
    requires some <= ids
    ensures SameOutside(a, b, ids)
  {
  }

  lemma AsStoredIs(was: NodeMap, nodes: seq<ManagedNode>)
    requires forall node {:trigger node in nodes} :: node in nodes ==> node.id in was && !Listed(node) && NodeRefs(node) == NodeRefs(was[node.id])
    ensures AsStored(was, nodes)
  {
    hide NodeRefs, Listed;
  }

  lemma NotListedYet(m: NodeMap, ids: set<string>, some: set<string>)
    requires some <= Joinable(m, ids)
    ensures forall id {:trigger id in some} :: id in some ==> !(id in m && Listed(m[id]))
  {
  }

  lemma JoinableIs(m: NodeMap, ids: set<string>, some: set<string>)
    requires some <= Joinable(m, ids)
    ensures some <= ids
  {
  }

  lemma MarkKeyed(m: NodeMap, after: NodeMap, marked: seq<ManagedNode>)
    requires Keyed(m) && after == m + Applied(map[], Puts(marked))
    ensures Keyed(after)
  {
    PutKeyed(marked);
  }

  lemma GoesIs(course: Course, replies: ImportReplies, promote: bool)
    ensures ConfigAtJoining(course, replies) == if course.leaving == [] then course.c0 else Remaining(course.c0, course.leaving, replies.saves)
    ensures var routes := ListedRoutes(ConfigAtJoining(course, replies), replies.joining.listed);
            var joins := promote && course.passed != [];
            && Entered(course, replies, promote) == (if joins then Ported(course.committed, course.passed, routes, replies.joining) else {})
            && Gone(course, replies, promote) == (if joins then Lost(course.committed, course.passed, routes, replies.joining) else {})
            && ConfigAtCheck(course, replies, promote) ==
               (if course.leaving != [] || Entered(course, replies, promote) != {} then replies.reload.config
                else if joins && Asked(course.committed, course.passed, routes, replies.joining) then replies.joining.config
                else ConfigAtJoining(course, replies))
            && (Stores(course, replies) <==> (course.leaving != [] ==> Removes(course.c0, course.leaving, replies.saves)) && replies.commits)
            && (Joins(course, replies, promote) <==>
                  Stores(course, replies) && (joins ==> JoinOk(course.committed, course.passed, routes, replies.joining)))
            && (Goes(course, replies, promote) <==>
                  && Joins(course, replies, promote)
                  && (course.leaving != [] || Entered(course, replies, promote) != {} ==> replies.reload.ok)
                  && Checks(course.joined, ConfigAtCheck(course, replies, promote), replies.check))
    ensures Entered(course, replies, promote) != {} <==> |Entered(course, replies, promote)| > 0
  {
    hide Remaining, ListedRoutes, Ported, Lost, Asked, Removes, JoinOk, Checks;
    var routes := ListedRoutes(ConfigAtJoining(course, replies), replies.joining.listed);
    LostJoinable(course.committed, course.passed, routes, replies.joining);
    JoinOkIs(course.committed, course.passed, routes, replies.joining);
  }

  lemma GoesJoins(course: Course, replies: ImportReplies, promote: bool)
    ensures Goes(course, replies, promote) ==> Joins(course, replies, promote) && Stores(course, replies)
  {
    hide Stores, JoinOk, Entered, ConfigAtCheck, Checks;
  }

  lemma JoinedIs(course: Course, replies: ImportReplies, promote: bool)
    requires KeepsRefs(course.committed, course.joined)
    requires course.joined.Keys == course.committed.Keys - Gone(course, replies, promote)
    requires NewMembers(course.committed, course.joined) == Entered(course, replies, promote)
    requires SameOutside(course.joined, course.committed, Joinable(course.committed, Members(course.passed)))
    ensures JoinedFrom(course, replies, promote)
  {
    hide KeepsRefs, Gone, NewMembers, Entered, SameOutside;
  }

  lemma KeptIs(course: Course, replies: ImportReplies, promote: bool, final: NodeMap, joined: NodeMap)
    requires KeepsRefs(course.committed, final) && joined.Keys == course.committed.Keys - Gone(course, replies, promote)
    requires final.Keys == joined.Keys && PoolIds(final) == PoolIds(joined) && SameOutside(final, joined, PoolIds(joined))
    requires SameOutside(joined, course.committed, Joinable(course.committed, Members(course.passed)))
    ensures Kept(course, replies, promote, final)
  {
    hide KeepsRefs, Gone, PoolIds, Joinable, Get;
    var all := Joinable(course.committed, Members(course.passed)) + PoolIds(final);
    Widen(joined, course.committed, Joinable(course.committed, Members(course.passed)), all);
    SameThrough(final, joined, course.committed, PoolIds(joined), all);
  }

  lemma PassedIdsReady(updates: NodeMap, keys: seq<string>, ids: seq<string>)
    requires Keyed(updates) && Enumerates(keys, updates.Keys) && NoRepeats(ids)
    requires forall id {:trigger id in ids} :: id in ids <==>
               exists i :: 0 <= i < |keys| && Values(updates, keys)[i].id == id && Values(updates, keys)[i].state == Passed && !Values(updates, keys)[i].inPool
    ensures Enumerates(ids, ReadyIds(updates)) && Members(ids) == ReadyIds(updates)
  {
    forall id ensures id in ids <==> id in ReadyIds(updates) {
      if id in ids {
        var i :| 0 <= i < |keys| && Values(updates, keys)[i].id == id && Values(updates, keys)[i].state == Passed && !Values(updates, keys)[i].inPool;
        assert keys[i] in keys && updates[keys[i]].id == keys[i];
      }
      if id in ReadyIds(updates) {
        assert id in keys;
        var i :| 0 <= i < |keys| && keys[i] == id;
        assert Values(updates, keys)[i] == updates[id];
      }
    }
  }

  lemma ReadyWithin(updates: NodeMap)
    ensures ReadyIds(updates) <= updates.Keys
  {
  }

  // Those ready after the check are those that passed and can be built.
  lemma ReadyChecked(updates: NodeMap, problem: ManagedNode -> Option<string>, now: nat)
    ensures ReadyIds(CheckedAll(updates, problem, now)) == PassedOf(updates, problem)
  {
  }

  lemma ImportedIs(course: Course, stageIds: seq<string>, staged: NodeMap, matches: SourceRef -> bool, problem: ManagedNode -> Option<string>,
                   checkedAt: nat, listing: seq<string>, keys: seq<string>, now: nat)
    requires Enumerates(listing, course.m0.Keys)
    requires Enumerates(keys, CheckedAll(Updates(course.m0, staged, matches), problem, checkedAt).Keys)
    requires forall id :: id in keys ==> id in CheckedAll(Updates(course.m0, staged, matches), problem, checkedAt)
    requires course.committed == Changed(course.m0, Values(CheckedAll(Updates(course.m0, staged, matches), problem, checkedAt), keys),
                                         DeletedIn(course.m0, listing, staged, matches) + stageIds, now)
    requires Enumerates(course.passed, ReadyIds(CheckedAll(Updates(course.m0, staged, matches), problem, checkedAt)))
    ensures ImportedFrom(course, stageIds, staged, matches, problem)
  {
    hide Changed, Values, DeletedIn, Updates, CheckedAll, CommittedFrom, PassedOf, ReadyIds;
    CommittedIs(course.m0, stageIds, staged, matches, problem, checkedAt, listing, keys, now, course.committed);
    ReadyChecked(Updates(course.m0, staged, matches), problem, checkedAt);
  }

  // ---- which configured nodes go ----

  lemma BreaksNone(before: NodeMap, updates: NodeMap, problem: ManagedNode -> Option<string>)
    ensures forall name :: !BreaksIn(before, updates, updates.Keys - updates.Keys, problem, name)
  {
  }

  lemma BreaksStep(before: NodeMap, updates: NodeMap, todo: set<string>, problem: ManagedNode -> Option<string>, id: string)
    requires id in todo && id in updates
    ensures forall name :: BreaksIn(before, updates, updates.Keys - (todo - {id}), problem, name) <==>
                           BreaksIn(before, updates, updates.Keys - todo, problem, name) || Breaks(before, updates, problem, id, name)
    ensures forall name :: Breaks(before, updates, problem, id, name) <==>
              && Candidate(updates[id]) && problem(updates[id]).Some?
              && id in before && PoolMember(before[id]) && before[id].name == name && Trim(name) != ""
  {
    hide Candidate, Trim;
    var done, done' := updates.Keys - todo, updates.Keys - (todo - {id});
    forall name ensures BreaksIn(before, updates, done', problem, name) <==>
                        BreaksIn(before, updates, done, problem, name) || Breaks(before, updates, problem, id, name) {
      assert id in done';
    }
  }

  lemma {:induction false} NamesInAt(m: NodeMap, listing: seq<string>, staged: NodeMap, matches: SourceRef -> bool, name: string)
    ensures name in NamesIn(m, listing, staged, matches) <==>
              exists id :: id in listing && id in m && LeavesPool(m[id], staged, matches) && m[id].name == name
  {
    hide LeavesPool;
    if listing != [] {
      var init, last := listing[..|listing| - 1], listing[|listing| - 1];
      assert listing == init + [last];
      NamesInAt(m, init, staged, matches, name);
    }
  }

  lemma LeavesIs(m: NodeMap, listing: seq<string>, stageIds: seq<string>, staged: NodeMap, matches: SourceRef -> bool,
                 problem: ManagedNode -> Option<string>, before: NodeMap, names: seq<string>)
    requires Enumerates(listing, m.Keys) && StagedMap(staged) && before == Restrict(m, Touched(m, stageIds, staged, matches))
    requires var updates := Updates(m, staged, matches);
             forall name :: name in names <==> name in NamesIn(m, listing, staged, matches) || BreaksIn(before, updates, updates.Keys, problem, name)
    ensures forall name {:trigger name in names} :: name in names <==> Leaves(m, staged, matches, problem, name)
  {
    hide Updates, NamesIn, LeavesPool, Breaks, StagedMap, Touched;
    var updates := Updates(m, staged, matches);
    forall name {:trigger name in names} ensures name in names <==> Leaves(m, staged, matches, problem, name) {
      NamesInAt(m, listing, staged, matches, name);
      forall id ensures Breaks(before, updates, problem, id, name) <==> Breaks(m, updates, problem, id, name) {
        BreaksBefore(m, stageIds, staged, matches, problem, id, name);
      }
      BreaksWithin(before, updates, problem, name);
      BreaksWithin(m, updates, problem, name);
    }
  }

  lemma BreaksWithin(before: NodeMap, updates: NodeMap, problem: ManagedNode -> Option<string>, name: string)
    ensures forall id :: Breaks(before, updates, problem, id, name) ==> id in updates.Keys && id in before && before[id].name == name
  {
  }

  lemma BreaksBefore(m: NodeMap, stageIds: seq<string>, staged: NodeMap, matches: SourceRef -> bool,
                     problem: ManagedNode -> Option<string>, id: string, name: string)
    requires StagedMap(staged)
    ensures Breaks(Restrict(m, Touched(m, stageIds, staged, matches)), Updates(m, staged, matches), problem, id, name) <==>
            Breaks(m, Updates(m, staged, matches), problem, id, name)
  {
    hide Updates, Touched, StagedMap, Candidate, Checked, Trim;
    if id in Updates(m, staged, matches) {
      UpdateTouched(m, stageIds, staged, matches, problem, 0, id);
    }
  }

  // ---- small facts of the removal ----

  lemma PresentNone(config: seq<ConfigNode>)
    ensures !Present(config, {})
  {
  }

  lemma WithoutNone(names: set<string>)
    ensures Without([], names) == []
  {
  }

  lemma WithoutStep(config: seq<ConfigNode>, names: set<string>, i: nat)
    requires i < |config|
    ensures Without(config[..i + 1], names) == Without(config[..i], names) + if config[i].name in names then [] else [config[i]]
  {
    assert config[..i + 1][..i] == config[..i];
  }

  lemma RemovesIs(config: seq<ConfigNode>, names: seq<string>, saves: bool)
    ensures Removes(config, names, saves) <==> TrimmedNames(names) == {} || (saves && Present(config, TrimmedNames(names)))
    ensures Remaining(config, names, saves) == if Removes(config, names, saves) then Without(config, TrimmedNames(names)) else config
    ensures Without(config, {}) == config
  {
    hide TrimmedNames;
    WithoutExactly(config, {});
  }

  lemma CommittedIs(m: NodeMap, stageIds: seq<string>, staged: NodeMap, matches: SourceRef -> bool, problem: ManagedNode -> Option<string>,
                    checkedAt: nat, listing: seq<string>, keys: seq<string>, now: nat, after: NodeMap)
    requires Enumerates(listing, m.Keys)
    requires Enumerates(keys, CheckedAll(Updates(m, staged, matches), problem, checkedAt).Keys)
    requires forall id :: id in keys ==> id in CheckedAll(Updates(m, staged, matches), problem, checkedAt)
    requires after == Changed(m, Values(CheckedAll(Updates(m, staged, matches), problem, checkedAt), keys),
                              DeletedIn(m, listing, staged, matches) + stageIds, now)
    ensures CommittedFrom(m, stageIds, staged, matches, problem, after)
  {
    hide Changed, Values, DeletedIn, Updates, CheckedAll;
    assert CommittedAs(m, stageIds, staged, matches, problem, checkedAt, listing, keys, now, after);
  }

  // Every node is as it was, or stored again as it was.
  ghost predicate BackTo(m0: NodeMap, m: NodeMap, back: nat) {
    forall id {:trigger Get(m, id)} :: Get(m, id) == Get(m0, id) || (id in m0 && Get(m, id) == Some(Replaced(m0[id], back)))
  }

  lemma RestrictKeyed(m: NodeMap, ids: set<string>)
    requires Keyed(m)
    ensures Keyed(Restrict(m, ids))
  {
  }

  lemma EnumeratesIn(ids: seq<string>, keys: set<string>)
    requires Enumerates(ids, keys)
    ensures NoRepeats(ids) && Members(ids) == keys && forall id :: id in ids ==> id in keys
  {
  }

  lemma ValuesDistinctIds(m: NodeMap, keys: seq<string>)
    requires Keyed(m) && Enumerates(keys, m.Keys)
    ensures DistinctIds(Values(m, keys))
  {
    ValuesDistinct(m, keys);
  }

  // Going back from any state that differs in touched nodes only.
  lemma BackIs(was: NodeMap, m0: NodeMap, touched: set<string>, keys: seq<string>, deletes: seq<string>, now: nat)
    requires Keyed(m0) && SameOutside(was, m0, touched)
    requires Enumerates(keys, Restrict(m0, touched).Keys) && Enumerates(deletes, touched - Restrict(m0, touched).Keys)
    ensures BackTo(m0, Changed(was, Values(Restrict(m0, touched), keys), deletes, now), now)
  {
    hide Replaced, Changed, Values;
    var before := Restrict(m0, touched);
    RestrictKeyed(m0, touched);
    var after := Changed(was, Values(before, keys), deletes, now);
    forall id {:trigger Get(after, id)} ensures Get(after, id) == Get(m0, id) || (id in m0 && Get(after, id) == Some(Replaced(m0[id], now))) {
      ChangedAt(was, before, keys, deletes, now, id);
      assert id in deletes <==> id in touched && id !in m0;
      if id !in touched {
        assert Get(was, id) == Get(m0, id);
      }
    }
  }

  // A store put back runs what it ran.
  lemma BackPaired(m0: NodeMap, m: NodeMap, config: seq<ConfigNode>, back: nat)
    requires BackTo(m0, m, back) && Paired(m0, config)
    ensures Paired(m, config)
  {
    hide Replaced, Runs;
    forall id ensures (id in PoolIds(m) <==> id in PoolIds(m0)) && (id in PoolIds(m) ==> Runs(config, m[id])) {
      BackAt(m0, m, back, id);
      if id in PoolIds(m0) {
        assert Runs(config, m0[id]);
        SameRuns(config, m0[id], m[id]);
      }
    }
    assert PoolIds(m) == PoolIds(m0);
  }

  lemma BackAt(m0: NodeMap, m: NodeMap, back: nat, id: string)
    requires BackTo(m0, m, back)
    ensures id in m <==> id in m0
    ensures id in m ==> SameRuntime(m[id], m0[id])
  {
    hide Dedup, NodeRefs;
    assert Get(m, id) == Get(m0, id) || (id in m0 && Get(m, id) == Some(Replaced(m0[id], back)));
  }

  lemma SameRuns(config: seq<ConfigNode>, a: ManagedNode, b: ManagedNode)
    requires Runs(config, a) && SameRuntime(a, b)
    ensures Runs(config, b)
  {
    assert ToConfigNode(a).port == ToConfigNode(b).port;
  }

  lemma ChangesWithin(m: NodeMap, updates: NodeMap, keys: seq<string>, deleted: seq<string>, now: nat, ok: bool, after: NodeMap, touched: set<string>)
    requires Keyed(updates) && Enumerates(keys, updates.Keys) && updates.Keys <= touched && Members(deleted) <= touched
    requires var list := Values(updates, keys);
             after == if ok then Changed(m, list, deleted, now)
                      else Undone(Changed(m, list, deleted, now), ChangeLog(m, Replacements(list, now), deleted))
    ensures SameOutside(after, m, touched) && (!ok ==> after == m)
  {
    hide Changed, Values, Undone, ChangeLog, Replaced, Replacements;
    if ok {
      forall id | id !in touched ensures Get(after, id) == Get(m, id) {
        assert id !in Members(deleted);
        ChangedAt(m, updates, keys, deleted, now, id);
      }
    } else {
      ValuesDistinctIds(updates, keys);
      ChangesUndone(m, Values(updates, keys), deleted, now);
    }
  }

  lemma StageIdsStaging(m: NodeMap, ids: seq<string>, stageMode: string)
    requires AllUsable(m, ids, stageMode) && StageMode(stageMode)
    ensures forall id :: id in ids ==> id in m && Staging(m[id])
  {
  }

  // Whatever the plan writes or deletes is remembered as touched.
  lemma PlanWithin(m: NodeMap, listing: seq<string>, stageIds: seq<string>, staged: NodeMap, matches: SourceRef -> bool,
                   problem: ManagedNode -> Option<string>, now: nat)
    requires Keyed(m) && StagedMap(staged) && ByIdentity(matches)
    ensures var touched := Touched(m, stageIds, staged, matches);
            && CheckedAll(Updates(m, staged, matches), problem, now).Keys <= touched
            && Members(DeletedIn(m, listing, staged, matches)) <= touched && Members(stageIds) <= touched
    ensures Keyed(CheckedAll(Updates(m, staged, matches), problem, now))
  {
    hide *;
    UpdatesKeyed(m, staged, matches, problem, now);
    var touched := Touched(m, stageIds, staged, matches);
    forall id | id in CheckedAll(Updates(m, staged, matches), problem, now) ensures id in touched {
      UpdateTouched(m, stageIds, staged, matches, problem, now, id);
    }
    forall id | id in Members(DeletedIn(m, listing, staged, matches)) ensures id in touched {
      DeletedTouched(m, listing, stageIds, staged, matches, id);
    }
    StageTouched(m, stageIds, staged, matches);
  }

  lemma UpdateTouched(m: NodeMap, stageIds: seq<string>, staged: NodeMap, matches: SourceRef -> bool,
                      problem: ManagedNode -> Option<string>, now: nat, id: string)
    requires StagedMap(staged) && id in CheckedAll(Updates(m, staged, matches), problem, now)
    ensures id in Touched(m, stageIds, staged, matches)
  {
    hide FateOf, StagedMap, Checked;
    UpdateAt(m, staged, matches, id);
  }

  lemma DeletedTouched(m: NodeMap, listing: seq<string>, stageIds: seq<string>, staged: NodeMap, matches: SourceRef -> bool, id: string)
    requires id in Members(DeletedIn(m, listing, staged, matches))
    ensures id in Touched(m, stageIds, staged, matches)
  {
    hide FateOf;
  }

  lemma StageTouched(m: NodeMap, stageIds: seq<string>, staged: NodeMap, matches: SourceRef -> bool)
    ensures Members(stageIds) <= Touched(m, stageIds, staged, matches)
  {
    hide FateOf;
  }

  lemma MembersConcat(a: seq<string>, b: seq<string>)
    ensures Members(a + b) == Members(a) + Members(b)
  {
    assert forall id :: id in a + b <==> id in a || id in b;
  }

  // ---- collecting ----

  ghost predicate Collected(m: NodeMap, ids: seq<string>, stageMode: string, fallbackMode: string, route: (string, string) -> string,
                            staged: NodeMap, stageIds: seq<string>) {
    && Sourced(m, ids, stageMode, fallbackMode)
    && staged == StagedOf(m, ids, stageMode, fallbackMode, route)
    && |stageIds| <= |ids|
    && (|stageIds| == |ids| <==> AllUsable(m, ids, stageMode))
    && (|stageIds| == |ids| ==> stageIds == ids)
  }

  lemma StageNone(m: NodeMap, stageMode: string, fallbackMode: string, route: (string, string) -> string)
    ensures Collected(m, [], stageMode, fallbackMode, route, map[], [])
  {
  }

  lemma StageStep(m: NodeMap, ids: seq<string>, stageMode: string, fallbackMode: string, route: (string, string) -> string,
                  staged: NodeMap, stageIds: seq<string>, i: nat)
    requires Keyed(m) && i < |ids| && Collected(m, ids[..i], stageMode, fallbackMode, route, staged, stageIds)
    ensures Usable(m, ids[i], stageMode) ==> ids[i] in m && m[ids[i]].id == ids[i]
    ensures Usable(m, ids[i], stageMode) && !Publishable(m[ids[i]], fallbackMode) ==> !Sourced(m, ids, stageMode, fallbackMode)
    ensures if !Usable(m, ids[i], stageMode) then Collected(m, ids[..i + 1], stageMode, fallbackMode, route, staged, stageIds)
            else
              var node := m[ids[i]];
              var key := route(node.uri, node.chainProfileId);
              Publishable(node, fallbackMode) ==>
                Collected(m, ids[..i + 1], stageMode, fallbackMode, route, staged[key := Published(node, key, fallbackMode)], stageIds + [node.id])
  {
    hide Published, Publishable, Usable;
    var head := ids[..i + 1];
    assert head == ids[..i] + [ids[i]] && head[..i] == ids[..i];
    assert ids[i] in ids && ids[i] in head;
    if Usable(m, ids[i], stageMode) {
      UsableIs(m, ids[i], stageMode);
      if Publishable(m[ids[i]], fallbackMode) {
        assert Sourced(m, head, stageMode, fallbackMode);
        var key := route(m[ids[i]].uri, m[ids[i]].chainProfileId);
        assert StagedOf(m, head, stageMode, fallbackMode, route) == staged[key := Published(m[ids[i]], key, fallbackMode)];
        AllUsableStep(m, ids[..i], ids[i], stageMode);
      }
    } else {
      assert Sourced(m, head, stageMode, fallbackMode);
    }
  }

  lemma AllUsableStep(m: NodeMap, ids: seq<string>, id: string, stageMode: string)
    requires Usable(m, id, stageMode)
    ensures AllUsable(m, ids + [id], stageMode) <==> AllUsable(m, ids, stageMode)
  {
    hide Usable;
    forall other {:trigger other in ids} | other in ids ensures other in ids + [id] { }
    forall other {:trigger other in ids + [id]} | other in ids + [id] ensures other in ids || other == id { }
  }

  lemma UsableIs(m: NodeMap, id: string, stageMode: string)
    requires Usable(m, id, stageMode)
    ensures id in m && m[id].importMode == stageMode
  {
  }

  lemma StageDone(m: NodeMap, ids: seq<string>, stageMode: string, fallbackMode: string, route: (string, string) -> string,
                  staged: NodeMap, stageIds: seq<string>)
    requires Collected(m, ids, stageMode, fallbackMode, route, staged, stageIds)
    ensures Sourced(m, ids, stageMode, fallbackMode) && staged == StagedOf(m, ids, stageMode, fallbackMode, route)
    ensures |stageIds| <= |ids| && (|stageIds| == |ids| <==> AllUsable(m, ids, stageMode)) && (|stageIds| == |ids| ==> stageIds == ids)
  {
  }

  // ---- checking ----

  function CheckedBut(updates: NodeMap, todo: set<string>, problem: ManagedNode -> Option<string>, now: nat): NodeMap {
    map id | id in updates :: if id in todo then updates[id] else Checked(updates[id], problem, now)
  }

  lemma CheckNone(updates: NodeMap, problem: ManagedNode -> Option<string>, now: nat)
    ensures CheckedBut(updates, updates.Keys, problem, now) == updates
  {
  }

  lemma CheckStep(updates: NodeMap, todo: set<string>, problem: ManagedNode -> Option<string>, now: nat, id: string)
    requires id in todo && id in updates
    ensures id in CheckedBut(updates, todo, problem, now) && CheckedBut(updates, todo, problem, now)[id] == updates[id]
    ensures CheckedBut(updates, todo - {id}, problem, now) == CheckedBut(updates, todo, problem, now)[id := Checked(updates[id], problem, now)]
    ensures Checked(updates[id], problem, now) ==
            if Candidate(updates[id]) && problem(updates[id]).Some? then
              updates[id].(state := Failed, inPool := false, port := 0, lastError := problem(updates[id]).value, updatedAt := now)
            else updates[id]
    ensures CheckedBut(updates, todo, problem, now)[id := updates[id]] == CheckedBut(updates, todo, problem, now)
  {
  }

  lemma CheckDone(updates: NodeMap, problem: ManagedNode -> Option<string>, now: nat)
    ensures CheckedBut(updates, {}, problem, now) == CheckedAll(updates, problem, now)
  {
  }

  lemma KeysCount(m: NodeMap)
    ensures |m.Keys| == |m|
  {
  }

  lemma NothingMarked(m: NodeMap)
    ensures m + map[] == m
  {
  }

  lemma NoRepeatsNotTwice(m: NodeMap, ids: seq<string>)
    requires NoRepeats(ids)
    ensures NotTwice(m, ids)
  {
  }

  lemma Widen(a: NodeMap, b: NodeMap, some: set<string>, ids: set<string>)
    requires SameOutside(a, b, some) && some <= ids
    ensures SameOutside(a, b, ids)
  {
  }

  lemma SyncNone(byRoute: map<Route, ConfigNode>)
    ensures Syncing([], byRoute, [])
  {
  }

  lemma PoolListFacts(m: NodeMap, ids: set<string>, pool: seq<ManagedNode>)
    requires PoolList(m, ids, pool)
    ensures DistinctIds(pool) && |pool| == |ids|
  {
  }

  lemma SyncingFacts(pool: seq<ManagedNode>, byRoute: map<Route, ConfigNode>, updates: seq<ManagedNode>)
    requires Syncing(pool, byRoute, updates)
    ensures DistinctIds(updates)
  {
  }

  lemma AppliedNone(m: NodeMap)
    ensures Applied(m, []) == m
  {
  }

  lemma UndoesIs(m: NodeMap, ws: seq<Write>)
    requires Undoes(m, ws)
    ensures Undone(Applied(m, ws), Log(m, ws)) == m
  {
  }
}

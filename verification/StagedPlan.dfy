/**
  Planning a staged import: one pass over the stored nodes decides what to write, what to delete,
  what to remember for the way back and which pool ports to drop.
 */
module StagedPlan {
  import opened SourceRefs
  import opened Nodes
  import opened Orders
  import opened StoreModel
  import opened ChangeSet

  // ---- staging nodes, by the id they publish under ----

  predicate Usable(m: NodeMap, id: string, stageMode: string) {
    id in m && m[id].importMode == stageMode && m[id].state in {Passed, Failed}
  }

  // Every listed node is usable; its publication has a source.
  ghost predicate AllUsable(m: NodeMap, ids: seq<string>, stageMode: string) {
    forall id {:trigger id in ids} :: id in ids ==> Usable(m, id, stageMode)
  }

  ghost predicate Sourced(m: NodeMap, ids: seq<string>, stageMode: string, fallbackMode: string) {
    forall id {:trigger id in ids} :: id in ids && Usable(m, id, stageMode) ==> Publishable(m[id], fallbackMode)
  }

  function StagedOf(m: NodeMap, ids: seq<string>, stageMode: string, fallbackMode: string, route: (string, string) -> string): (r: NodeMap)
    requires Sourced(m, ids, stageMode, fallbackMode)
  {
    if ids == [] then map[]
    else
      var init, id := ids[..|ids| - 1], ids[|ids| - 1];
      assert Sourced(m, init, stageMode, fallbackMode) by { assert forall i :: i in init ==> i in ids; }
      var rest := StagedOf(m, init, stageMode, fallbackMode, route);
      assert id in ids;
      if Usable(m, id, stageMode) then
        var key := route(m[id].uri, m[id].chainProfileId);
        rest[key := Published(m[id], key, fallbackMode)]
      else rest
  }

  ghost predicate StagedMap(staged: NodeMap) {
    forall id {:trigger staged[id]} :: id in staged ==> Staged(staged[id]) && staged[id].id == id && !staged[id].inPool
  }

  lemma {:induction false} StagedOfFacts(m: NodeMap, ids: seq<string>, stageMode: string, fallbackMode: string, route: (string, string) -> string)
    requires Sourced(m, ids, stageMode, fallbackMode)
    ensures StagedMap(StagedOf(m, ids, stageMode, fallbackMode, route))
  {
    hide Published, Settled, Publishable;
    if ids != [] {
      var init, id := ids[..|ids| - 1], ids[|ids| - 1];
      assert forall i :: i in init ==> i in ids;
      assert id in ids;
      StagedOfFacts(m, init, stageMode, fallbackMode, route);
      if Usable(m, id, stageMode) {
        PublishedSettled(m[id], route(m[id].uri, m[id].chainProfileId), fallbackMode);
      }
    }
  }

  function RouteId(m: NodeMap, id: string, route: (string, string) -> string): string
    requires id in m
  {
    route(m[id].uri, m[id].chainProfileId)
  }

  // Staged under an id: the last usable node listed whose address and chain make that id.
  lemma {:induction false} StagedLast(m: NodeMap, ids: seq<string>, stageMode: string, fallbackMode: string, route: (string, string) -> string,
                                      i: nat)
    requires Sourced(m, ids, stageMode, fallbackMode) && i < |ids| && Usable(m, ids[i], stageMode) && Publishable(m[ids[i]], fallbackMode)
    requires forall j {:trigger ids[j]} :: i < j < |ids| && Usable(m, ids[j], stageMode) ==> RouteId(m, ids[j], route) != RouteId(m, ids[i], route)
    ensures var id, staged := RouteId(m, ids[i], route), StagedOf(m, ids, stageMode, fallbackMode, route);
            id in staged && staged[id] == Published(m[ids[i]], id, fallbackMode)
  {
    hide Published, Publishable;
    var init := ids[..|ids| - 1];
    assert forall k :: k in init ==> k in ids;
    assert ids[|ids| - 1] in ids;
    if i < |init| {
      StagedLast(m, init, stageMode, fallbackMode, route, i);
    }
  }

  lemma {:induction false} StagedFrom(m: NodeMap, ids: seq<string>, stageMode: string, fallbackMode: string, route: (string, string) -> string,
                                      id: string)
    requires Sourced(m, ids, stageMode, fallbackMode)
    ensures id in StagedOf(m, ids, stageMode, fallbackMode, route) <==>
            exists i :: 0 <= i < |ids| && Usable(m, ids[i], stageMode) && RouteId(m, ids[i], route) == id
  {
    hide Published, Publishable;
    if ids != [] {
      var init, last := ids[..|ids| - 1], ids[|ids| - 1];
      assert ids == init + [last] && forall k :: k in init ==> k in ids;
      assert last in ids;
      StagedFrom(m, init, stageMode, fallbackMode, route, id);
      if Usable(m, last, stageMode) && RouteId(m, last, route) == id { assert ids[|init|] == last; }
      if i :| 0 <= i < |init| && Usable(m, init[i], stageMode) && RouteId(m, init[i], route) == id { assert ids[i] == init[i]; }
    }
  }

  // ---- the plan ----

  datatype Plan = Plan(updates: NodeMap, deleted: seq<string>, before: NodeMap, touched: set<string>, names: seq<string>)

  function UpdatesIn(m: NodeMap, done: set<string>, staged: NodeMap, matches: SourceRef -> bool): NodeMap {
    map id | id in done && id in m && FateOf(m[id], staged, matches).Rewritten? :: FateOf(m[id], staged, matches).node
  }

  // Staged nodes no published node of `done` has met.
  function Unmet(m: NodeMap, done: set<string>, staged: NodeMap): NodeMap {
    map id | id in staged && !(id in done && id in m && !Staging(m[id])) :: staged[id]
  }

  function Updates(m: NodeMap, staged: NodeMap, matches: SourceRef -> bool): NodeMap {
    UpdatesIn(m, m.Keys, staged, matches) + Unmet(m, m.Keys, staged)
  }

  function DeletedIn(m: NodeMap, listing: seq<string>, staged: NodeMap, matches: SourceRef -> bool): (r: seq<string>)
    ensures forall id :: id in r <==> id in listing && id in m && FateOf(m[id], staged, matches).Deleted?
  {
    if listing == [] then []
    else
      var init, id := listing[..|listing| - 1], listing[|listing| - 1];
      assert listing == init + [id];
      DeletedIn(m, init, staged, matches) + if id in m && FateOf(m[id], staged, matches).Deleted? then [id] else []
  }

  function TouchedIn(m: NodeMap, done: set<string>, staged: NodeMap, matches: SourceRef -> bool): set<string> {
    set id | id in done && id in m && Touches(FateOf(m[id], staged, matches))
  }

  function Touched(m: NodeMap, stageIds: seq<string>, staged: NodeMap, matches: SourceRef -> bool): set<string> {
    Members(stageIds) + staged.Keys + TouchedIn(m, m.Keys, staged, matches)
  }

  function Restrict(m: NodeMap, ids: set<string>): NodeMap {
    map id | id in m && id in ids :: m[id]
  }

  // The node is a pool member now and will not be one afterwards.
  predicate LeavesPool(current: ManagedNode, staged: NodeMap, matches: SourceRef -> bool) {
    && !Staging(current) && PoolMember(current)
    && var refs := NodeRefs(current);
       var kept := Unmatched(refs, matches);
       && |kept| < |refs|
       && if current.id in staged then staged[current.id].state == Failed else kept == []
  }

  function NamesIn(m: NodeMap, listing: seq<string>, staged: NodeMap, matches: SourceRef -> bool): seq<string> {
    if listing == [] then []
    else
      var init, id := listing[..|listing| - 1], listing[|listing| - 1];
      NamesIn(m, init, staged, matches) + if id in m && LeavesPool(m[id], staged, matches) then [m[id].name] else []
  }

  // A pool port is dropped exactly for the members that stop being members.
  lemma LeavesPoolExactly(current: ManagedNode, staged: NodeMap, matches: SourceRef -> bool)
    requires !Staging(current) && PoolMember(current)
    requires current.id in staged ==> staged[current.id].state in {Passed, Failed} && !staged[current.id].inPool
    ensures var fate := FateOf(current, staged, matches);
            LeavesPool(current, staged, matches) <==> fate.Deleted? || (fate.Rewritten? && !PoolMember(fate.node))
  {
    hide NodeRefs, Dedup;
  }

  // What the loop has computed after the nodes of `done`.
  ghost predicate Planned(m: NodeMap, prefix: seq<string>, stageIds: seq<string>, staged: NodeMap, matches: SourceRef -> bool, left: NodeMap, plan: Plan) {
    var done := Members(prefix);
    && left == Unmet(m, done, staged)
    && plan.updates == UpdatesIn(m, done, staged, matches)
    && plan.deleted == DeletedIn(m, prefix, staged, matches)
    && plan.touched == Members(stageIds) + staged.Keys + TouchedIn(m, done, staged, matches)
    && plan.before == Restrict(m, plan.touched * done)
    && plan.names == NamesIn(m, prefix, staged, matches)
  }

  // ---- one node ----

  predicate Touches(fate: Fate) {
    !fate.Aside? && !fate.Untouched?
  }

  function NextPlan(current: ManagedNode, fate: Fate, leaves: bool, plan: Plan): Plan {
    var touched := if Touches(fate) then plan.touched + {current.id} else plan.touched;
    Plan(if fate.Rewritten? then plan.updates[current.id := fate.node] else plan.updates,
         if fate.Deleted? then plan.deleted + [current.id] else plan.deleted,
         if current.id in touched then plan.before[current.id := current] else plan.before,
         touched,
         if leaves then plan.names + [current.name] else plan.names)
  }

  function NextLeft(current: ManagedNode, left: NodeMap): NodeMap {
    if Staging(current) then left else left - {current.id}
  }

  method Keep(refs: seq<SourceRef>, matches: SourceRef -> bool) returns (kept: seq<SourceRef>, matched: bool)
    ensures kept == Unmatched(refs, matches) && matched == (|kept| < |refs|)
  {
    kept, matched := [], false;
    for i := 0 to |refs|
      invariant kept == Unmatched(refs[..i], matches) && matched == (|kept| < i)
    {
      assert refs[..i + 1][..i] == refs[..i];
      if matches(refs[i]) {
        matched := true;
        continue;
      }
      kept := kept + [refs[i]];
    }
    assert refs[..|refs|] == refs;
  }

  method Inherit(incoming: ManagedNode, current: ManagedNode) returns (node: ManagedNode)
    ensures node == Inherited(incoming, current)
  {
    node := incoming.(createdAt := current.createdAt);
    if incoming.state == Passed && (current.inPool || current.state == NodeState.InPool) {
      node := node.(name := current.name, port := current.port, inPool := true);
      node := node.(state := NodeState.InPool, enabled := current.enabled);
      if incoming.countryCode == "" {
        node := node.(countryCode := current.countryCode, countryName := current.countryName);
      }
    }
  }

  method Merge(incoming: ManagedNode, refs: seq<SourceRef>, current: ManagedNode) returns (node: ManagedNode)
    ensures node == Inherited(incoming.(sourceRefs := Dedup(refs + incoming.sourceRefs)), current)
  {
    hide *;
    var merged := DeduplicateSourceRefs(refs + incoming.sourceRefs);
    node := Inherit(incoming.(sourceRefs := merged), current);
  }

  // The branches of the pass for one stored node.
  method Decide(current: ManagedNode, left: NodeMap, matches: SourceRef -> bool) returns (fate: Fate, leaves: bool)
    requires current.id in left ==> left[current.id].state in {Passed, Failed}
    ensures fate == FateOf(current, left, matches) && leaves == LeavesPool(current, left, matches)
  {
    hide Dedup, NodeRefs, RefOfNode, Inherited, Unmatched;
    if current.importMode == "refresh_stage" || current.importMode == "import_stage" {
      return Aside, false;
    }
    var refs := NodeSourceRefs(current);
    var kept, matched := Keep(refs, matches);
    if !matched {
      if current.id !in left {
        return Untouched, false;
      }
      if left[current.id].state == Passed {
        var node := Merge(left[current.id], refs, current);
        return Rewritten(node), false;
      }
      return PassedOver, false;
    }
    leaves := false;
    if current.id in left {
      if left[current.id].state == Failed && (current.inPool || current.state == NodeState.InPool) {
        leaves := true;
      }
      var node := Merge(left[current.id], kept, current);
      return Rewritten(node), leaves;
    }
    if kept == [] {
      return Deleted, current.inPool || current.state == NodeState.InPool;
    }
    var node := current.(sourceRefs := kept);
    if matches(RefOfNode(node)) {
      node := WithPrimary(node, kept[0]);
    }
    fate := Rewritten(node);
  }

  // The body of the pass over the stored nodes.
  method Visit(given: Plan, stagedLeft: NodeMap, current: ManagedNode, matches: SourceRef -> bool) returns (plan: Plan, left: NodeMap)
    requires StagedMap(stagedLeft)
    ensures plan == NextPlan(current, FateOf(current, stagedLeft, matches), LeavesPool(current, stagedLeft, matches), given)
    ensures left == NextLeft(current, stagedLeft)
  {
    hide FateOf, LeavesPool, StagedMap;
    StagedStates(stagedLeft, current.id);
    AsideIs(current, stagedLeft, matches);
    var id := current.id;
    plan, left := given, stagedLeft;
    var fate, leaves := Decide(current, stagedLeft, matches);
    if !fate.Aside? {
      left := left - {id};
    }
    if id in plan.touched || Touches(fate) {
      plan := plan.(before := plan.before[id := current]);
    }
    if Touches(fate) {
      plan := plan.(touched := plan.touched + {id});
    }
    if fate.Deleted? {
      plan := plan.(deleted := plan.deleted + [id]);
    }
    if fate.Rewritten? {
      plan := plan.(updates := plan.updates[id := fate.node]);
    }
    if leaves {
      plan := plan.(names := plan.names + [current.name]);
    }
  }

  lemma AsideIs(current: ManagedNode, staged: NodeMap, matches: SourceRef -> bool)
    ensures FateOf(current, staged, matches).Aside? <==> Staging(current)
  {
  }

  lemma StagedStates(staged: NodeMap, id: string)
    requires StagedMap(staged)
    ensures id in staged ==> staged[id].state in {Passed, Failed}
  {
    hide Settled;
  }

  // ---- the pass ----

  method PlanChanges(m: NodeMap, listing: seq<string>, stageIds: seq<string>, staged: NodeMap, matches: SourceRef -> bool) returns (plan: Plan)
    requires Keyed(m) && Enumerates(listing, m.Keys) && StagedMap(staged)
    requires forall id :: id in stageIds ==> id in m && Staging(m[id])
    ensures plan == Plan(Updates(m, staged, matches), DeletedIn(m, listing, staged, matches),
                         Restrict(m, Touched(m, stageIds, staged, matches)), Touched(m, stageIds, staged, matches),
                         NamesIn(m, listing, staged, matches))
  {
    hide *;
    var left := staged;
    plan := Plan(map[], [], map[], Members(stageIds) + staged.Keys, []);
    PlanStarts(m, stageIds, staged, matches);
    for i := 0 to |listing|
      invariant Planned(m, listing[..i], stageIds, staged, matches, left, plan)
    {
      PrefixStep(m, listing, i);
      LeftStaged(m, listing[..i], stageIds, staged, matches, left, plan);
      PlanStep(m, listing[..i], listing[i], stageIds, staged, matches, left, plan);
      plan, left := Visit(plan, left, m[listing[i]], matches);
    }
    assert listing[..|listing|] == listing;
    PlanDone(m, listing, stageIds, staged, matches, left, plan);
    plan := plan.(updates := plan.updates + left);
  }

  lemma PlanStarts(m: NodeMap, stageIds: seq<string>, staged: NodeMap, matches: SourceRef -> bool)
    ensures Planned(m, [], stageIds, staged, matches, staged, Plan(map[], [], map[], Members(stageIds) + staged.Keys, []))
  {
    hide FateOf;
    assert Unmet(m, {}, staged) == staged;
  }

  lemma FateSame(current: ManagedNode, a: NodeMap, b: NodeMap, matches: SourceRef -> bool)
    requires Get(a, current.id) == Get(b, current.id)
    ensures FateOf(current, a, matches) == FateOf(current, b, matches)
    ensures LeavesPool(current, a, matches) == LeavesPool(current, b, matches)
  {
    hide NodeRefs, Dedup, Unmatched, Inherited, Thinned;
  }

  lemma LeftStep(m: NodeMap, done: set<string>, staged: NodeMap, id: string)
    requires id in m && id !in done && m[id].id == id
    ensures Unmet(m, done + {id}, staged) == NextLeft(m[id], Unmet(m, done, staged))
    ensures Get(Unmet(m, done, staged), id) == Get(staged, id)
  {
  }

  lemma UpdatesStep(m: NodeMap, done: set<string>, staged: NodeMap, matches: SourceRef -> bool, id: string)
    requires id in m && id !in done
    ensures var fate := FateOf(m[id], staged, matches);
            UpdatesIn(m, done + {id}, staged, matches) ==
            if fate.Rewritten? then UpdatesIn(m, done, staged, matches)[id := fate.node] else UpdatesIn(m, done, staged, matches)
  {
    hide FateOf;
  }

  lemma TouchedStep(m: NodeMap, done: set<string>, staged: NodeMap, matches: SourceRef -> bool, id: string)
    requires id in m && id !in done
    ensures TouchedIn(m, done + {id}, staged, matches) ==
            TouchedIn(m, done, staged, matches) + if Touches(FateOf(m[id], staged, matches)) then {id} else {}
  {
    hide FateOf;
  }

  lemma BeforeStep(m: NodeMap, done: set<string>, touched: set<string>, touched': set<string>, id: string)
    requires id in m && id !in done && touched <= touched' <= touched + {id}
    ensures Restrict(m, touched' * (done + {id})) ==
            if id in touched' then Restrict(m, touched * done)[id := m[id]] else Restrict(m, touched * done)
  {
  }

  lemma PrefixStep(m: NodeMap, listing: seq<string>, i: nat)
    requires Keyed(m) && Enumerates(listing, m.Keys) && i < |listing|
    ensures listing[..i + 1] == listing[..i] + [listing[i]]
    ensures listing[i] in m && listing[i] !in listing[..i] && m[listing[i]].id == listing[i]
  {
    assert listing[i] in listing;
    assert forall j :: 0 <= j < i ==> listing[..i][j] == listing[j] && listing[j] != listing[i];
  }

  lemma MembersStep(prefix: seq<string>, id: string)
    ensures Members(prefix + [id]) == Members(prefix) + {id} && (id !in prefix ==> id !in Members(prefix))
    ensures (prefix + [id])[..|prefix|] == prefix
  {
  }

  lemma PlanStep(m: NodeMap, prefix: seq<string>, id: string, stageIds: seq<string>, staged: NodeMap, matches: SourceRef -> bool,
                 left: NodeMap, plan: Plan)
    requires id in m && id !in prefix && m[id].id == id
    requires Planned(m, prefix, stageIds, staged, matches, left, plan)
    ensures Planned(m, prefix + [id], stageIds, staged, matches, NextLeft(m[id], left),
                    NextPlan(m[id], FateOf(m[id], left, matches), LeavesPool(m[id], left, matches), plan))
  {
    hide FateOf, LeavesPool, Touches, UpdatesIn, Unmet, TouchedIn, Restrict, NextLeft, Members;
    MembersStep(prefix, id);
    var done := Members(prefix);
    LeftStep(m, done, staged, id);
    FateSame(m[id], left, staged, matches);
    UpdatesStep(m, done, staged, matches, id);
    TouchedStep(m, done, staged, matches, id);
    var base := Members(stageIds) + staged.Keys;
    var touched' := if Touches(FateOf(m[id], staged, matches)) then plan.touched + {id} else plan.touched;
    assert base + TouchedIn(m, done + {id}, staged, matches) == touched';
    BeforeStep(m, done, plan.touched, touched', id);
  }

  lemma LeftStaged(m: NodeMap, prefix: seq<string>, stageIds: seq<string>, staged: NodeMap, matches: SourceRef -> bool, left: NodeMap, plan: Plan)
    requires StagedMap(staged) && Planned(m, prefix, stageIds, staged, matches, left, plan)
    ensures StagedMap(left)
  {
    hide Staged;
  }

  lemma PlanDone(m: NodeMap, listing: seq<string>, stageIds: seq<string>, staged: NodeMap, matches: SourceRef -> bool, left: NodeMap, plan: Plan)
    requires Enumerates(listing, m.Keys)
    requires Planned(m, listing, stageIds, staged, matches, left, plan)
    ensures plan.updates + left == Updates(m, staged, matches)
    ensures plan.deleted == DeletedIn(m, listing, staged, matches) && plan.names == NamesIn(m, listing, staged, matches)
    ensures plan.touched == Touched(m, stageIds, staged, matches)
    ensures plan.before == Restrict(m, Touched(m, stageIds, staged, matches))
  {
    hide FateOf;
    assert Members(listing) == m.Keys;
  }
}

/**
  Deleting a source: every node loses the references the source gave it, and a node left without
  any is deleted.
 */
module Detach {
  import opened SourceRefs
  import opened Nodes
  import opened Options
  import opened Orders
  import opened StoreModel
  import opened StoreWrites
  import opened StoreUndo
  import opened ChangeSet
  import opened StagedPlan
  import opened RuntimePairing
  import opened ConfigNodes
  import opened ImportCourse
  import opened StagedImport

  predicate Loses(node: ManagedNode, matches: SourceRef -> bool) {
    |Unmatched(NodeRefs(node), matches)| < |NodeRefs(node)|
  }

  predicate LosesAll(node: ManagedNode, matches: SourceRef -> bool) {
    Loses(node, matches) && Unmatched(NodeRefs(node), matches) == []
  }

  predicate LosesSome(node: ManagedNode, matches: SourceRef -> bool) {
    Loses(node, matches) && Unmatched(NodeRefs(node), matches) != []
  }

  function Left(node: ManagedNode, matches: SourceRef -> bool): ManagedNode
    requires LosesSome(node, matches)
  {
    Thinned(node, Unmatched(NodeRefs(node), matches), matches)
  }

  function Losers(m: NodeMap, done: set<string>, matches: SourceRef -> bool): set<string> {
    set id | id in done && id in m && Loses(m[id], matches)
  }

  function Lefts(m: NodeMap, done: set<string>, matches: SourceRef -> bool): NodeMap {
    map id | id in done && id in m && LosesSome(m[id], matches) :: Left(m[id], matches)
  }

  // The configured node of a deleted pool member goes, by its name.
  predicate Dropped(m: NodeMap, matches: SourceRef -> bool, id: string, name: string) {
    id in m && LosesAll(m[id], matches) && PoolMember(m[id]) && m[id].name == name && Trim(name) != ""
  }

  ghost predicate DroppedFrom(m: NodeMap, done: set<string>, matches: SourceRef -> bool, name: string) {
    exists id :: id in done && Dropped(m, matches, id, name)
  }

  // One node, before and after.
  ghost predicate DetachedAt(m: NodeMap, after: NodeMap, matches: SourceRef -> bool, now: nat, id: string) {
    Get(after, id) ==
    if id !in m || LosesAll(m[id], matches) then None
    else if LosesSome(m[id], matches) then Some(Replaced(Left(m[id], matches), now))
    else Some(m[id])
  }

  // ---- what it means for the references ----

  // Gone: exactly the nodes all of whose references match; the others keep exactly those that do not.
  lemma DetachedExactly(m: NodeMap, after: NodeMap, matches: SourceRef -> bool, now: nat, id: string)
    requires ByIdentity(matches) && DetachedAt(m, after, matches, now, id)
    ensures id in after <==> id in m && !AllMatch(NodeRefs(m[id]), matches)
    ensures id in after ==> NodeRefs(after[id]) == Unmatched(NodeRefs(m[id]), matches) && NoneMatches(NodeRefs(after[id]), matches)
    ensures id in after && NoneMatches(NodeRefs(m[id]), matches) ==> after[id] == m[id]
  {
    hide NodeRefs, ByIdentity, Thinned, Replaced, Settled, Unmatched, Normalized, IdentityOf;
    if id in m {
      var refs := NodeRefs(m[id]);
      UnmatchedFacts(refs, matches);
      AllOrSome(refs, matches);
      if LosesSome(m[id], matches) {
        ThinnedSettled(m[id], matches);
        SettledRefs(Left(m[id], matches), now);
      }
    }
  }

  lemma AllOrSome(refs: seq<SourceRef>, matches: SourceRef -> bool)
    ensures AllMatch(refs, matches) <==> |Unmatched(refs, matches)| < |refs| && Unmatched(refs, matches) == []
    ensures NoneMatches(refs, matches) <==> |Unmatched(refs, matches)| == |refs|
    ensures NoneMatches(Unmatched(refs, matches), matches)
  {
    hide Unmatched;
    UnmatchedFacts(refs, matches);
    if Unmatched(refs, matches) != [] {
      assert Unmatched(refs, matches)[0] in Unmatched(refs, matches);
    }
  }

  // Deleting the same source again finds nothing.
  lemma DetachedTwice(m: NodeMap, after: NodeMap, matches: SourceRef -> bool, now: nat)
    requires ByIdentity(matches)
    requires forall id {:trigger DetachedAt(m, after, matches, now, id)} :: DetachedAt(m, after, matches, now, id)
    ensures Losers(after, after.Keys, matches) == {}
  {
    hide NodeRefs, ByIdentity, DetachedAt, Unmatched;
    forall id | id in after ensures !Loses(after[id], matches) {
      assert DetachedAt(m, after, matches, now, id);
      DetachedExactly(m, after, matches, now, id);
      AllOrSome(NodeRefs(after[id]), matches);
    }
  }

  // ---- one pass over the nodes ----

  // After the nodes of `done`.
  ghost predicate Detaching(m: NodeMap, done: set<string>, matches: SourceRef -> bool, keys: seq<string>,
                            updates: seq<ManagedNode>, deleted: seq<string>, touched: nat, dropped: seq<string>) {
    && Enumerates(keys, Lefts(m, done, matches).Keys)
    && (forall id :: id in keys ==> id in Lefts(m, done, matches)) && updates == Values(Lefts(m, done, matches), keys)
    && (forall id {:trigger id in deleted} :: id in deleted <==> id in done && id in m && LosesAll(m[id], matches))
    && touched == |Losers(m, done, matches)|
    && (forall name {:trigger name in dropped} :: name in dropped <==> DroppedFrom(m, done, matches, name))
  }

  lemma DetachStarts(m: NodeMap, matches: SourceRef -> bool)
    ensures Detaching(m, {}, matches, [], [], [], 0, [])
  {
    assert Lefts(m, {}, matches) == map[];
    assert Losers(m, {}, matches) == {};
  }

  lemma LosersStep(m: NodeMap, done: set<string>, matches: SourceRef -> bool, id: string)
    requires id in m && id !in done
    ensures |Losers(m, done + {id}, matches)| == |Losers(m, done, matches)| + if Loses(m[id], matches) then 1 else 0
  {
    hide Loses;
    assert Losers(m, done + {id}, matches) == Losers(m, done, matches) + if Loses(m[id], matches) then {id} else {};
  }

  lemma LeftsStep(m: NodeMap, done: set<string>, matches: SourceRef -> bool, keys: seq<string>, id: string)
    requires id in m && id !in done && Enumerates(keys, Lefts(m, done, matches).Keys)
    requires forall k :: k in keys ==> k in Lefts(m, done, matches)
    ensures LosesSome(m[id], matches) ==>
              && Enumerates(keys + [id], Lefts(m, done + {id}, matches).Keys) && (forall k :: k in keys + [id] ==> k in Lefts(m, done + {id}, matches))
              && Values(Lefts(m, done + {id}, matches), keys + [id]) == Values(Lefts(m, done, matches), keys) + [Left(m[id], matches)]
    ensures !LosesSome(m[id], matches) ==> Lefts(m, done + {id}, matches) == Lefts(m, done, matches)
  {
    hide LosesSome, Left;
    if LosesSome(m[id], matches) {
      assert Lefts(m, done + {id}, matches) == Lefts(m, done, matches)[id := Left(m[id], matches)];
      OneMore(keys, Lefts(m, done, matches).Keys, id);
      assert Lefts(m, done, matches).Keys + {id} == Lefts(m, done + {id}, matches).Keys;
      forall i | 0 <= i < |keys| ensures keys[i] != id { assert keys[i] in keys; }
    }
  }

  lemma DroppedStep(m: NodeMap, done: set<string>, matches: SourceRef -> bool, id: string, name: string)
    ensures DroppedFrom(m, done + {id}, matches, name) <==> DroppedFrom(m, done, matches, name) || Dropped(m, matches, id, name)
  {
    hide Dropped;
    if Dropped(m, matches, id, name) {
      assert id in done + {id};
    }
  }

  lemma DetachStep(m: NodeMap, done: set<string>, matches: SourceRef -> bool, keys: seq<string>,
                   updates: seq<ManagedNode>, deleted: seq<string>, touched: nat, dropped: seq<string>, id: string)
    requires id in m && id !in done && Detaching(m, done, matches, keys, updates, deleted, touched, dropped)
    ensures !Loses(m[id], matches) ==> Detaching(m, done + {id}, matches, keys, updates, deleted, touched, dropped)
    ensures LosesSome(m[id], matches) ==>
              Detaching(m, done + {id}, matches, keys + [id], updates + [Left(m[id], matches)], deleted, touched + 1, dropped)
    ensures LosesAll(m[id], matches) ==>
              Detaching(m, done + {id}, matches, keys, updates, deleted + [id], touched + 1,
                        if PoolMember(m[id]) && Trim(m[id].name) != "" then dropped + [m[id].name] else dropped)
  {
    hide NodeRefs, Unmatched, Trim, Left, Lefts, Losers, DroppedFrom;
    LosersStep(m, done, matches, id);
    LeftsStep(m, done, matches, keys, id);
    forall name ensures DroppedFrom(m, done + {id}, matches, name) <==> DroppedFrom(m, done, matches, name) || Dropped(m, matches, id, name) {
      DroppedStep(m, done, matches, id, name);
    }
  }

  lemma DetachDone(m: NodeMap, matches: SourceRef -> bool, keys: seq<string>, updates: seq<ManagedNode>, deleted: seq<string>,
                   touched: nat, dropped: seq<string>, now: nat, id: string)
    requires Keyed(m) && Detaching(m, m.Keys, matches, keys, updates, deleted, touched, dropped)
    ensures DetachedAt(m, Changed(m, updates, deleted, now), matches, now, id) && DistinctIds(updates)
    ensures touched == 0 ==> DetachedAt(m, m, matches, now, id)
  {
    hide NodeRefs, Unmatched, Changed, Replaced, Loses;
    var lefts := Lefts(m, m.Keys, matches);
    assert Keyed(lefts) by { LeftsKeyed(m, matches); }
    ChangedAt(m, lefts, keys, deleted, now, id);
    ValuesDistinct(lefts, keys);
    if touched == 0 && id in m {
      assert id !in Losers(m, m.Keys, matches);
    }
  }

  lemma LeftsKeyed(m: NodeMap, matches: SourceRef -> bool)
    requires Keyed(m)
    ensures Keyed(Lefts(m, m.Keys, matches))
  {
    hide NodeRefs, Unmatched;
  }

  // ---- detachSources ----

  // What is configured after the removal, and after a reload if one is asked for.
  function ConfigAfter(config: seq<ConfigNode>, dropped: seq<string>, saves: bool, reload: bool, reply: ReloadReply): seq<ConfigNode> {
    if dropped != [] && Removes(config, dropped, saves) && reload then reply.config else Remaining(config, dropped, saves)
  }

  predicate Reconfigures(config: seq<ConfigNode>, dropped: seq<string>, saves: bool, reload: bool, reply: ReloadReply) {
    dropped == [] || (Removes(config, dropped, saves) && (reload ==> reply.ok))
  }

  // The configured nodes of deleted members go first, and nothing brings them back when a later step
  // fails: only the store is all or nothing.  After a failure the configuration is the old one exactly
  // if no name was to be dropped, or none could be, or the reload left the old one behind.
  method DetachSources(service: ImportService, matches: SourceRef -> bool, reload: bool, saves: bool, reply: ReloadReply, commits: bool)
    returns (ok: bool, touched: nat, dropped: seq<string>, ghost now: nat)
    requires Mirrored(service.store.nodes, service.store.table)
    modifies service`config, service.store
    ensures Mirrored(service.store.nodes, service.store.table)
    ensures forall name :: name in dropped <==> DroppedFrom(old(service.store.nodes), old(service.store.nodes).Keys, matches, name)
    ensures service.config == ConfigAfter(old(service.config), dropped, saves, reload, reply)
    ensures ok <==> Reconfigures(old(service.config), dropped, saves, reload, reply)
                    && (Losers(old(service.store.nodes), old(service.store.nodes).Keys, matches) == {} || commits)
    ensures !ok ==> (service.config == old(service.config) <==>
                       || dropped == [] || !Removes(old(service.config), dropped, saves)
                       || (reload && reply.config == old(service.config)))
    ensures !ok ==> service.store.nodes == old(service.store.nodes) && touched == 0
    ensures ok ==> touched == |Losers(old(service.store.nodes), old(service.store.nodes).Keys, matches)|
    ensures ok ==> forall id {:trigger DetachedAt(old(service.store.nodes), service.store.nodes, matches, now, id)} ::
              DetachedAt(old(service.store.nodes), service.store.nodes, matches, now, id)
  {
    hide *;
    ghost var was := service.store.nodes;
    MirroredIs(was, service.store.table);
    var listing := AnyOrder(service.store.nodes.Keys);
    var updates: seq<ManagedNode>, deleted: seq<string> := [], [];
    ghost var keys: seq<string> := [];
    touched, dropped, now := 0, [], 0;
    DetachStarts(was, matches);
    ListingEnds(listing, was);
    for i := 0 to |listing|
      invariant service.store.nodes == was && service.store.table == old(service.store.table) && service.config == old(service.config)
      invariant Detaching(was, Members(listing[..i]), matches, keys, updates, deleted, touched, dropped)
    {
      ListingStep(listing, was, i);
      var node := service.store.nodes[listing[i]];
      DetachStep(was, Members(listing[..i]), matches, keys, updates, deleted, touched, dropped, listing[i]);
      LosesIs(node, matches);
      var refs := NodeSourceRefs(node);
      var kept, removed := Keep(refs, matches);
      if !removed {
        continue;
      }
      touched := touched + 1;
      if kept == [] {
        deleted := deleted + [node.id];
        if (node.inPool || node.state == NodeState.InPool) && Trim(node.name) != "" {
          dropped := dropped + [node.name];
        }
        continue;
      }
      node := node.(sourceRefs := kept);
      if matches(RefOfNode(node)) {
        node := WithPrimary(node, kept[0]);
      }
      updates := updates + [node];
      keys := keys + [listing[i]];
    }
    DetachingFacts(was, matches, keys, updates, deleted, touched, dropped);
    ConfigIs(service.config, dropped, saves, reload, reply);
    if dropped != [] {
      var removed := service.DeleteConfigNodesStrict(dropped, saves);
      if !removed {
        return false, 0, dropped, now;
      }
      if reload {
        var reloaded := service.TriggerReload(reply);
        if !reloaded {
          return false, 0, dropped, now;
        }
      }
    }
    forall id, at: nat ensures DetachedAt(was, Changed(was, updates, deleted, at), matches, at, id) && DistinctIds(updates)
      ensures touched == 0 ==> DetachedAt(was, was, matches, at, id)
    {
      DetachDone(was, matches, keys, updates, deleted, touched, dropped, at, id);
    }
    ok := true;
    if touched == 0 {
      return;
    }
    var at := service.Clock();
    now := at;
    assert DetachedAt(was, Changed(was, updates, deleted, at), matches, at, "");
    ChangesUndone(was, updates, deleted, at);
    ok := service.store.ApplyNodeChanges(updates, deleted, at, commits);
    if !ok {
      touched := 0;
    }
  }

  lemma ListingEnds(listing: seq<string>, m: NodeMap)
    requires Enumerates(listing, m.Keys)
    ensures Members(listing[..0]) == {} && Members(listing[..|listing|]) == m.Keys
  {
    assert listing[..|listing|] == listing;
  }

  lemma ListingStep(listing: seq<string>, m: NodeMap, i: nat)
    requires Enumerates(listing, m.Keys) && i < |listing| && Keyed(m)
    ensures listing[i] in m && m[listing[i]].id == listing[i] && listing[i] !in Members(listing[..i])
    ensures Members(listing[..i + 1]) == Members(listing[..i]) + {listing[i]}
  {
    PrefixStep(m, listing, i);
    StagedPlan.MembersStep(listing[..i], listing[i]);
  }

  lemma LosesIs(node: ManagedNode, matches: SourceRef -> bool)
    ensures var refs := NodeRefs(node);
            var kept := Unmatched(refs, matches);
            && (Loses(node, matches) <==> |kept| < |refs|)
            && (LosesAll(node, matches) <==> |kept| < |refs| && kept == [])
            && (LosesSome(node, matches) <==> |kept| < |refs| && kept != [])
            && (LosesSome(node, matches) ==>
                  var thin := node.(sourceRefs := kept); Left(node, matches) == if matches(RefOfNode(thin)) then WithPrimary(thin, kept[0]) else thin)
    ensures PoolMember(node) <==> node.inPool || node.state == NodeState.InPool
  {
    hide NodeRefs, Unmatched, RefOfNode;
  }

  lemma DetachingFacts(m: NodeMap, matches: SourceRef -> bool, keys: seq<string>, updates: seq<ManagedNode>, deleted: seq<string>,
                       touched: nat, dropped: seq<string>)
    requires Detaching(m, m.Keys, matches, keys, updates, deleted, touched, dropped)
    ensures touched == |Losers(m, m.Keys, matches)| && (touched == 0 <==> Losers(m, m.Keys, matches) == {})
    ensures forall name :: name in dropped <==> DroppedFrom(m, m.Keys, matches, name)
    ensures dropped != [] ==> TrimmedNames(dropped) != {}
  {
    hide Losers, Lefts, NodeRefs, Unmatched;
    if dropped != [] {
      assert dropped[0] in dropped;
      var id :| Dropped(m, matches, id, dropped[0]);
      assert Trim(dropped[0]) in TrimmedNames(dropped);
    }
  }

  lemma ConfigIs(config: seq<ConfigNode>, dropped: seq<string>, saves: bool, reload: bool, reply: ReloadReply)
    requires dropped != [] ==> TrimmedNames(dropped) != {}
    ensures ConfigAfter(config, dropped, saves, reload, reply) ==
            if dropped == [] then config
            else if !Removes(config, dropped, saves) then config
            else if reload then reply.config else Remaining(config, dropped, saves)
    ensures Reconfigures(config, dropped, saves, reload, reply) <==> dropped == [] || (Removes(config, dropped, saves) && (reload ==> reply.ok))
    ensures Remaining(config, dropped, saves) == config <==> dropped == [] || !Removes(config, dropped, saves)
  {
    TrimmedNone();
    RemainingSame(config, dropped, saves);
  }

  // ---- a run that fails halfway ----

  // The table refuses the change set: the members are all still there, and the configuration they were
  // paired with is not.
  method FailingDetach(service: ImportService, matches: SourceRef -> bool, ghost id: string) returns (ok: bool)
    requires Mirrored(service.store.nodes, service.store.table) && Paired(service.store.nodes, service.config)
    requires id in PoolIds(service.store.nodes) && LosesAll(service.store.nodes[id], matches)
    requires Trim(service.store.nodes[id].name) == service.store.nodes[id].name != ""
    modifies service`config, service.store
    ensures !ok && service.store.nodes == old(service.store.nodes) && !Paired(service.store.nodes, service.config)
  {
    hide *;
    ghost var m, config := service.store.nodes, service.config;
    MirroredIs(m, service.store.table);
    var touched, dropped;
    ghost var now: nat;
    ok, touched, dropped, now := DetachSources(service, matches, false, true, ReloadReply(true, []), false);
    OneDropped(m, config, matches, id, dropped);
    FewerConfigured(m, config, dropped);
  }

  lemma OneDropped(m: NodeMap, config: seq<ConfigNode>, matches: SourceRef -> bool, id: string, dropped: seq<string>)
    requires Paired(m, config) && id in PoolIds(m) && LosesAll(m[id], matches) && Trim(m[id].name) == m[id].name != ""
    requires forall name :: name in dropped <==> DroppedFrom(m, m.Keys, matches, name)
    ensures dropped != [] && Removes(config, dropped, true) && Present(config, TrimmedNames(dropped))
    ensures Losers(m, m.Keys, matches) != {}
    ensures ConfigAfter(config, dropped, true, false, ReloadReply(true, [])) == Without(config, TrimmedNames(dropped))
  {
    hide NodeRefs, Unmatched, Trim;
    assert Dropped(m, matches, id, m[id].name);
    assert m[id].name in dropped;
    assert Trim(m[id].name) in TrimmedNames(dropped);
    assert Runs(config, m[id]);
    var i :| 0 <= i < |config| && config[i] == ToConfigNode(m[id]);
    assert config[i] in config;
    assert id in Losers(m, m.Keys, matches);
  }

  lemma FewerConfigured(m: NodeMap, config: seq<ConfigNode>, dropped: seq<string>)
    requires Paired(m, config) && Present(config, TrimmedNames(dropped))
    ensures !Paired(m, Without(config, TrimmedNames(dropped)))
  {
    WithoutExactly(config, TrimmedNames(dropped));
  }
}

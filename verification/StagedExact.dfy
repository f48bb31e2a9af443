/**
  A staged import is exact: which references, nodes and times differ once it is stored, and which
  once it is undone.
 */
module StagedExact {
  import opened SourceRefs
  import opened Nodes
  import opened Options
  import opened Orders
  import opened StoreModel
  import opened StoreWrites
  import opened ChangeSet
  import opened StagedPlan

  // ---- the runtime check before anything is stored ----

  predicate Candidate(node: ManagedNode) {
    node.state == Passed || PoolMember(node)
  }

  // A node the runtime cannot build fails instead of being published.
  function Checked(node: ManagedNode, problem: ManagedNode -> Option<string>, now: nat): ManagedNode {
    if Candidate(node) && problem(node).Some? then
      node.(state := Failed, inPool := false, port := 0, lastError := problem(node).value, updatedAt := now)
    else node
  }

  function CheckedAll(updates: NodeMap, problem: ManagedNode -> Option<string>, now: nat): NodeMap {
    map id | id in updates :: Checked(updates[id], problem, now)
  }

  // ---- references ----

  function Stored(m: NodeMap, stageIds: seq<string>, staged: NodeMap, matches: SourceRef -> bool,
                  problem: ManagedNode -> Option<string>, checkedAt: nat, listing: seq<string>, keys: seq<string>, now: nat): NodeMap
    requires forall id :: id in keys ==> id in CheckedAll(Updates(m, staged, matches), problem, checkedAt)
  {
    Changed(m, Values(CheckedAll(Updates(m, staged, matches), problem, checkedAt), keys),
            DeletedIn(m, listing, staged, matches) + stageIds, now)
  }

  ghost predicate PlannedStore(m: NodeMap, stageIds: seq<string>, staged: NodeMap) {
    && Keyed(m) && StagedMap(staged)
    && (forall id {:trigger id in stageIds} :: id in stageIds ==> id in m && Staging(m[id]) && id !in staged)
  }

  lemma UpdateAt(m: NodeMap, staged: NodeMap, matches: SourceRef -> bool, id: string)
    requires StagedMap(staged)
    ensures id in Updates(m, staged, matches) <==>
              if id in m && !Staging(m[id]) then FateOf(m[id], staged, matches).Rewritten? && id in m else id in staged
    ensures id in m && !Staging(m[id]) && FateOf(m[id], staged, matches).Rewritten? ==>
              Updates(m, staged, matches)[id] == FateOf(m[id], staged, matches).node
    ensures !(id in m && !Staging(m[id])) && id in staged ==> Updates(m, staged, matches)[id] == staged[id]
  {
    hide StagedMap, NodeRefs, Dedup, Unmatched, Inherited, Thinned;
  }

  lemma UpdatesKeyed(m: NodeMap, staged: NodeMap, matches: SourceRef -> bool, problem: ManagedNode -> Option<string>, now: nat)
    requires Keyed(m) && StagedMap(staged) && ByIdentity(matches)
    ensures Keyed(CheckedAll(Updates(m, staged, matches), problem, now))
  {
    hide FateOf, ByIdentity, Staged;
    var updates := Updates(m, staged, matches);
    forall id {:trigger updates[id]} | id in updates ensures updates[id].id == id {
      UpdateAt(m, staged, matches, id);
      if id in m && !Staging(m[id]) {
        RewrittenExactly(m[id], staged, matches, now);
      }
    }
  }

  lemma CheckedRefs(node: ManagedNode, problem: ManagedNode -> Option<string>, checkedAt: nat, now: nat)
    requires Settled(node)
    ensures NodeRefs(Replaced(Checked(node, problem, checkedAt), now)) == node.sourceRefs
  {
    hide Normalized, IdentityOf, Dedup, Trim, NodeRefs, Replaced;
    var checked := Checked(node, problem, checkedAt);
    assert RefOfNode(checked) == RefOfNode(node);
    SettledRefs(checked, now);
  }

  // A node that was published before the import.
  lemma ReplacedExactly(m: NodeMap, stageIds: seq<string>, staged: NodeMap, matches: SourceRef -> bool,
                        problem: ManagedNode -> Option<string>, checkedAt: nat, listing: seq<string>, keys: seq<string>, now: nat, id: string)
    requires PlannedStore(m, stageIds, staged) && ByIdentity(matches)
    requires Enumerates(listing, m.Keys) && Enumerates(keys, CheckedAll(Updates(m, staged, matches), problem, checkedAt).Keys)
    requires id in m && !Staging(m[id])
    ensures var after := Stored(m, stageIds, staged, matches, problem, checkedAt, listing, keys, now);
            && (id !in after <==> id !in staged && AllMatch(NodeRefs(m[id]), matches))
            && (id in after ==>
                  Replaces(NodeRefs(m[id]), NodeRefs(after[id]), if id in staged then staged[id].sourceRefs else [], matches))
  {
    hide FateOf, ByIdentity, Staged, NodeRefs, Replaced, Checked, Updates, Changed, Replaces, AllMatch, NoneMatches;
    var updates := CheckedAll(Updates(m, staged, matches), problem, checkedAt);
    var deleted := DeletedIn(m, listing, staged, matches);
    UpdatesKeyed(m, staged, matches, problem, checkedAt);
    UpdateAt(m, staged, matches, id);
    DeletedExactly(m[id], staged, matches);
    ChangedAt(m, updates, keys, deleted + stageIds, now, id);
    assert id in listing && id !in stageIds;
    assert id in deleted + stageIds <==> id in deleted;
    var fate := FateOf(m[id], staged, matches);
    if fate.Rewritten? {
      RewrittenExactly(m[id], staged, matches, now);
      CheckedRefs(fate.node, problem, checkedAt, now);
    } else if !fate.Deleted? {
      FateCases(m[id], staged, matches);
      UntouchedReplaces(NodeRefs(m[id]), if id in staged then staged[id].sourceRefs else [], matches);
    }
  }

  lemma FateCases(current: ManagedNode, staged: NodeMap, matches: SourceRef -> bool)
    requires !Staging(current)
    ensures var fate := FateOf(current, staged, matches);
            fate == Untouched || fate == PassedOver || fate.Rewritten? || fate.Deleted?
  {
    hide NodeRefs, Dedup, Unmatched, Inherited, Thinned;
  }

  lemma UntouchedReplaces(refs: seq<SourceRef>, fromStage: seq<SourceRef>, matches: SourceRef -> bool)
    requires NoneMatches(refs, matches)
    ensures Replaces(refs, refs, fromStage, matches)
  {
  }

  // The node stored in place of a published one that passed again: a member of the pool stays what it
  // was to the pool, and keeps its country if none was found.
  function Place(current: ManagedNode, incoming: ManagedNode): ManagedNode {
    if !(current.inPool || current.state == InPool) then incoming
    else
      incoming.(name := current.name, port := current.port, inPool := true, state := InPool, enabled := current.enabled,
                countryCode := if incoming.countryCode != "" then incoming.countryCode else current.countryCode,
                countryName := if incoming.countryCode != "" then incoming.countryName else current.countryName)
  }

  // If the runtime can build it, it is that; otherwise it is out of the pool and says why.
  lemma PlaceKept(m: NodeMap, stageIds: seq<string>, staged: NodeMap, matches: SourceRef -> bool,
                  problem: ManagedNode -> Option<string>, checkedAt: nat, listing: seq<string>, keys: seq<string>, now: nat, id: string)
    requires PlannedStore(m, stageIds, staged) && ByIdentity(matches)
    requires Enumerates(listing, m.Keys) && Enumerates(keys, CheckedAll(Updates(m, staged, matches), problem, checkedAt).Keys)
    requires id in m && !Staging(m[id]) && id in staged && staged[id].state == Passed
    ensures var after := Stored(m, stageIds, staged, matches, problem, checkedAt, listing, keys, now);
            var wanted := Place(m[id], staged[id]);
            && id in after && id in Updates(m, staged, matches)
            && (after[id].createdAt == if m[id].createdAt == 0 then now else m[id].createdAt)
            && match problem(Updates(m, staged, matches)[id])
               case None =>
                 after[id] == wanted.(sourceRefs := after[id].sourceRefs, createdAt := after[id].createdAt, updatedAt := now)
               case Some(reason) =>
                 after[id] == wanted.(state := Failed, inPool := false, port := 0, lastError := reason,
                                      sourceRefs := after[id].sourceRefs, createdAt := after[id].createdAt, updatedAt := now)
  {
    hide FateOf, ByIdentity, Staged, NodeRefs, Replaced, Checked, Updates, Changed, Place, Inherited;
    var updates := CheckedAll(Updates(m, staged, matches), problem, checkedAt);
    var deleted := DeletedIn(m, listing, staged, matches);
    UpdatesKeyed(m, staged, matches, problem, checkedAt);
    UpdateAt(m, staged, matches, id);
    PassedFate(m[id], staged, matches);
    ChangedAt(m, updates, keys, deleted + stageIds, now, id);
    assert id !in stageIds && id !in deleted;
    CheckedFields(Updates(m, staged, matches)[id], problem, checkedAt, now);
  }

  lemma PassedFate(current: ManagedNode, staged: NodeMap, matches: SourceRef -> bool)
    requires !Staging(current) && current.id in staged && staged[current.id].state == Passed
    ensures var fate := FateOf(current, staged, matches);
            && fate.Rewritten? && (fate.node.state == Passed || fate.node.inPool)
            && fate.node == Place(current, staged[current.id]).(sourceRefs := fate.node.sourceRefs, createdAt := current.createdAt)
  {
    hide NodeRefs, Dedup, Unmatched;
  }

  lemma CheckedFields(node: ManagedNode, problem: ManagedNode -> Option<string>, checkedAt: nat, now: nat)
    requires node.state == Passed || node.inPool
    ensures var stored := Replaced(Checked(node, problem, checkedAt), now);
            && (stored.createdAt == if node.createdAt == 0 then now else node.createdAt)
            && match problem(node)
               case None => stored == node.(sourceRefs := stored.sourceRefs, createdAt := stored.createdAt, updatedAt := now)
               case Some(reason) =>
                 stored == node.(state := Failed, inPool := false, port := 0, lastError := reason,
                                 sourceRefs := stored.sourceRefs, createdAt := stored.createdAt, updatedAt := now)
  {
    hide Dedup, NodeRefs;
  }

  // A node that was not: it appears exactly if it was staged, with what it was staged with.
  lemma AddedExactly(m: NodeMap, stageIds: seq<string>, staged: NodeMap, matches: SourceRef -> bool,
                     problem: ManagedNode -> Option<string>, checkedAt: nat, listing: seq<string>, keys: seq<string>, now: nat, id: string)
    requires PlannedStore(m, stageIds, staged) && ByIdentity(matches)
    requires Enumerates(listing, m.Keys) && Enumerates(keys, CheckedAll(Updates(m, staged, matches), problem, checkedAt).Keys)
    requires id !in m || id in stageIds
    ensures var after := Stored(m, stageIds, staged, matches, problem, checkedAt, listing, keys, now);
            && (id in after <==> id in staged)
            && (id in after ==> NodeRefs(after[id]) == staged[id].sourceRefs)
  {
    hide FateOf, ByIdentity, NodeRefs, Replaced, Checked, Updates, Changed, Settled, Staging;
    var updates := CheckedAll(Updates(m, staged, matches), problem, checkedAt);
    var deleted := DeletedIn(m, listing, staged, matches);
    UpdatesKeyed(m, staged, matches, problem, checkedAt);
    UpdateAt(m, staged, matches, id);
    ChangedAt(m, updates, keys, deleted + stageIds, now, id);
    assert id in deleted + stageIds <==> id in deleted || id in stageIds;
    if id in staged {
      CheckedRefs(staged[id], problem, checkedAt, now);
    }
  }

  // A store the import may commit, whatever the orders of iteration and the clock.
  ghost predicate CommittedFrom(m: NodeMap, stageIds: seq<string>, staged: NodeMap, matches: SourceRef -> bool,
                                problem: ManagedNode -> Option<string>, after: NodeMap) {
    exists checkedAt: nat, listing: seq<string>, keys: seq<string>, now: nat ::
      CommittedAs(m, stageIds, staged, matches, problem, checkedAt, listing, keys, now, after)
  }

  ghost predicate CommittedAs(m: NodeMap, stageIds: seq<string>, staged: NodeMap, matches: SourceRef -> bool,
                              problem: ManagedNode -> Option<string>, checkedAt: nat, listing: seq<string>, keys: seq<string>, now: nat,
                              after: NodeMap) {
    && Enumerates(listing, m.Keys)
    && Enumerates(keys, CheckedAll(Updates(m, staged, matches), problem, checkedAt).Keys)
    && after == Stored(m, stageIds, staged, matches, problem, checkedAt, listing, keys, now)
  }

  // ---- the way back ----

  // Storing a node again changes nothing but its time exactly when the store had written it.
  lemma StoredAgain(node: ManagedNode, now: nat)
    ensures Replaced(node, now) == node.(updatedAt := now) <==> Canonical(node) && (node.createdAt != 0 || now == 0)
  {
    hide Dedup, RefOfNode;
    var own := node.(sourceRefs := []);
    DedupTwice([] + [RefOfNode(own)]);
    assert node.sourceRefs == [] ==> own == node;
    assert NodeRefs(own) == Dedup([] + [RefOfNode(own)]);
  }

  // Every node the store writes is one it would write the same way again.
  lemma WrittenCanonical(m: NodeMap, node: ManagedNode, now: nat)
    requires now != 0
    ensures Canonical(Replaced(node, now)) && Replaced(node, now).createdAt != 0
    ensures Canonical(Merged(m, node, now)) && Merged(m, node, now).createdAt != 0
  {
    hide Dedup, RefOfNode, Identities;
    var own := node.(sourceRefs := []);
    DedupTwice(node.sourceRefs);
    DedupTwice([] + [RefOfNode(node)]);
    assert RefOfNode(own) == RefOfNode(node) && RefOfNode(Replaced(node, now)) == RefOfNode(node) by { OwnFields(node, now); }
    MergedCanonical(m, node, now);
  }

  lemma OwnFields(node: ManagedNode, now: nat)
    ensures RefOfNode(node.(sourceRefs := [])) == RefOfNode(node) && RefOfNode(Replaced(node, now)) == RefOfNode(node)
  {
    hide Trim, Dedup, NodeRefs;
  }

  lemma MergedCanonical(m: NodeMap, node: ManagedNode, now: nat)
    ensures Canonical(Merged(m, node, now))
  {
    hide Dedup, Trim, Identities, Normalized, IdentityOf;
    var refs := if node.id in m then NodeRefs(m[node.id]) + NodeRefs(node) else node.sourceRefs + [RefOfNode(node)];
    var merged := Merged(m, node, now);
    assert merged.sourceRefs == Dedup(refs);
    DedupTwice(refs);
    assert RefOfNode(merged) == RefOfNode(node);
    if Dedup(refs) == [] {
      NothingKept(refs);
      assert node.id in m ==> NodeRefs(node) == [] by {
        if node.id in m {
          NodeRefsListed(node);
          AllNamelessNone(NodeRefs(node), refs);
        }
      }
      if node.id in m {
        NothingKept(node.sourceRefs + [RefOfNode(node)]);
      }
      assert RefOfNode(node) in node.sourceRefs + [RefOfNode(node)];
      NothingToKeep([] + [RefOfNode(node)]);
    }
  }

  lemma NothingKept(refs: seq<SourceRef>)
    requires Dedup(refs) == []
    ensures forall ref {:trigger ref in refs} :: ref in refs ==> IdentityOf(Normalized(ref)) == NoIdentity
  {
    hide Dedup, Normalized, IdentityOf;
    DedupFacts(refs);
    forall ref {:trigger ref in refs} | ref in refs ensures IdentityOf(Normalized(ref)) == NoIdentity {
      assert IdentityOf(Normalized(ref)) != NoIdentity ==> IdentityOf(Normalized(ref)) in Identities(Dedup(refs));
    }
  }

  lemma NothingToKeep(refs: seq<SourceRef>)
    requires forall ref {:trigger ref in refs} :: ref in refs ==> IdentityOf(Normalized(ref)) == NoIdentity
    ensures Dedup(refs) == []
  {
    hide Dedup, Normalized, IdentityOf, Identities;
    DedupFacts(refs);
    EmptyIdentities(Dedup(refs));
    assert Identities(Dedup(refs)) == {};
  }

  lemma EmptyIdentities(refs: seq<SourceRef>)
    ensures refs == [] <==> Identities(refs) == {}
  {
    hide IdentityOf;
    if refs != [] {
      assert IdentityOf(refs[0]) in Identities(refs);
    }
  }

  lemma FirstIn(refs: seq<SourceRef>)
    ensures refs == [] || refs[0] in refs
  {
  }

  lemma AllNamelessNone(some: seq<SourceRef>, all: seq<SourceRef>)
    requires Tidy(some) && forall ref {:trigger ref in some} :: ref in some ==> ref in all
    requires forall ref {:trigger ref in all} :: ref in all ==> IdentityOf(Normalized(ref)) == NoIdentity
    ensures some == []
  {
    hide Normalized, IdentityOf;
    FirstIn(some);
  }
}

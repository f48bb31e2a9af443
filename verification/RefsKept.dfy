/**
  Steps that leave the references of every node alone: they may remove a node, rename it, move it
  in or out of the pool, or store it again.
 */
module RefsKept {
  import opened SourceRefs
  import opened Nodes
  import opened Options
  import opened Orders
  import opened StoreModel
  import opened StoreWrites
  import opened StorePool
  import opened StoreUndo
  import opened ChangeSet
  import opened RuntimePairing

  ghost predicate KeepsRefs(a: NodeMap, b: NodeMap) {
    forall id {:trigger b[id]} :: id in b ==> id in a && NodeRefs(b[id]) == NodeRefs(a[id])
  }

  lemma KeepsSame(m: NodeMap)
    ensures KeepsRefs(m, m)
  {
    hide NodeRefs;
  }

  lemma KeepsThrough(a: NodeMap, b: NodeMap, c: NodeMap)
    requires KeepsRefs(a, b) && KeepsRefs(b, c)
    ensures KeepsRefs(a, c)
  {
    hide NodeRefs;
  }

  lemma KeepsMarked(m: NodeMap, ports: map<string, nat>, ids: seq<string>, top: int, now: nat)
    requires Enumerates(ids, ports.Keys)
    ensures KeepsRefs(m, m + Marked(m, ports, ids, top, now))
  {
    hide NodeRefs, Marked;
    var marked := Marked(m, ports, ids, top, now);
    forall id | id in m + marked ensures id in m && NodeRefs((m + marked)[id]) == NodeRefs(m[id]) {
      MarkedKeys(m, ports, ids, top, now, id);
      if id in marked {
        var i :| 0 <= i < |ids| && ids[i] == id;
        MarkedAt(m, ports, ids, top, now, i);
        MarkRefs(m[id], ports[id], top + 1 + Joined(m, ids[..i]), now);
      }
    }
  }

  lemma MarkRefs(node: ManagedNode, port: nat, next: int, now: nat)
    ensures NodeRefs(Mark(node, port, next, now)) == NodeRefs(node)
  {
    hide Dedup;
  }

  // Adding references whose identities are listed already changes nothing.
  lemma {:induction false} DedupCovered(refs: seq<SourceRef>, more: seq<SourceRef>)
    requires Tidy(refs)
    requires forall ref {:trigger ref in more} :: ref in more ==> IdentityOf(Normalized(ref)) in Identities(refs) + {NoIdentity}
    ensures Dedup(refs + more) == refs
  {
    hide Normalized, IdentityOf, Identities, Dedup, Tidy;
    if more == [] {
      assert refs + more == refs;
      TidyFixed(refs);
    } else {
      var init, last := more[..|more| - 1], more[|more| - 1];
      assert more == init + [last] && forall ref :: ref in init ==> ref in more;
      assert last in more;
      DedupCovered(refs, init);
      assert refs + more == (refs + init) + [last];
      DedupAdds(refs + init, last);
    }
  }

  lemma TidyFixed(refs: seq<SourceRef>)
    requires Tidy(refs)
    ensures Dedup(refs) == refs
  {
    DedupFixed(refs);
  }

  // Merging a node with the references it has stores these references.
  lemma MergedRefs(m: NodeMap, node: ManagedNode, now: nat, refs: seq<SourceRef>)
    requires NodeRefs(node) == refs && (node.id in m ==> NodeRefs(m[node.id]) == refs)
    ensures NodeRefs(Merged(m, node, now)) == refs
  {
    hide Normalized, IdentityOf, Identities, Dedup, Trim;
    NodeRefsListed(node);
    var own := RefOfNode(node);
    assert RefOfNode(Merged(m, node, now)) == own;
    RefsListed(refs);
    DedupCovered(refs, refs);
    OwnCovered(node);
    DedupCovered(refs, [own]);
  }

  lemma RefsListed(refs: seq<SourceRef>)
    requires Tidy(refs)
    ensures forall ref {:trigger ref in refs} :: ref in refs ==> IdentityOf(Normalized(ref)) in Identities(refs)
  {
    hide Normalized, IdentityOf;
  }

  // Storing nodes again that were read from an earlier state with the same references.
  lemma KeepsUpserts(was: NodeMap, m: NodeMap, list: seq<ManagedNode>, now: nat)
    requires KeepsRefs(was, m) && DistinctIds(list)
    requires forall node {:trigger node in list} :: node in list ==> node.id in was && NodeRefs(node) == NodeRefs(was[node.id])
    ensures KeepsRefs(was, Applied(m, Upserts(m, list, now)))
  {
    hide NodeRefs, Merged, Applied, Upserts;
    var after := Applied(m, Upserts(m, list, now));
    forall id | id in after ensures id in was && NodeRefs(after[id]) == NodeRefs(was[id]) {
      if i :| 0 <= i < |list| && list[i].id == id {
        assert list[i] in list;
        UpsertedAt(m, list, now, i);
        MergedRefs(m, list[i], now, NodeRefs(was[id]));
        assert Get(after, id) == Some(Merged(m, list[i], now));
      } else {
        UpsertedOther(m, list, now, id);
        assert Get(after, id) == Get(m, id);
      }
    }
  }

  lemma SyncingKeeps(m: NodeMap, pool: seq<ManagedNode>, byRoute: map<Route, ConfigNode>, updates: seq<ManagedNode>)
    requires PoolList(m, PoolIds(m), pool) && Syncing(pool, byRoute, updates)
    ensures forall node {:trigger node in updates} :: node in updates ==> node.id in m && NodeRefs(node) == NodeRefs(m[node.id])
  {
    hide NodeRefs;
    forall node {:trigger node in updates} | node in updates ensures node.id in m && NodeRefs(node) == NodeRefs(m[node.id]) {
      assert SyncedFrom(node, pool, byRoute);
      var stored :| stored in pool && RouteOf(stored) in byRoute && node == Synced(stored, byRoute);
      SyncedRefs(stored, byRoute);
    }
  }

  lemma SyncedRefs(node: ManagedNode, byRoute: map<Route, ConfigNode>)
    requires RouteOf(node) in byRoute
    ensures NodeRefs(Synced(node, byRoute)) == NodeRefs(node) && Synced(node, byRoute).id == node.id
  {
    hide Dedup;
  }

  lemma RenamedRefs(node: ManagedNode, name: string)
    ensures NodeRefs(node.(name := name)) == NodeRefs(node)
  {
    hide Dedup;
  }
}

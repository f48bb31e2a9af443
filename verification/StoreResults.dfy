/**
  What a node stored by a mutator looks like afterwards, against the node given and the node that
  was stored before.
 */
module StoreResults {
  import opened SourceRefs
  import opened Nodes
  import opened Options
  import opened StoreModel
  import opened StoreWrites
  import opened ChangeSet

  // The references a map shows under an id.
  function RefsAt(m: NodeMap, id: string): seq<SourceRef> {
    if id in m then NodeRefs(m[id]) else []
  }

  // The sources that a list gives for an id.
  function GivenAt(list: seq<ManagedNode>, id: string): set<Identity> {
    set node, ref | node in list && node.id == id && ref in NodeRefs(node) :: IdentityOf(ref)
  }

  // The given node but for its references, and for the times the store writes.
  predicate StoredAs(given: ManagedNode, stored: ManagedNode, now: nat) {
    && stored == given.(sourceRefs := stored.sourceRefs, createdAt := stored.createdAt, updatedAt := now)
    && (given.createdAt == 0 ==> stored.createdAt == now) && (given.createdAt != 0 ==> stored.createdAt == given.createdAt)
  }

  // The i-th node is the last one listed under its id.
  ghost predicate LastAt(list: seq<ManagedNode>, i: nat) {
    i < |list| && forall j {:trigger list[j]} :: i < j < |list| ==> list[j].id != list[i].id
  }

  // ---- UpsertNodes: what is stored stays, what is given is added ----

  lemma MergedShows(m: NodeMap, node: ManagedNode, now: nat)
    ensures var shown := NodeRefs(Merged(m, node, now));
            && RefsAt(m, node.id) <= shown && shown == Merged(m, node, now).sourceRefs
            && Identities(shown) == Identities(RefsAt(m, node.id)) + Identities(NodeRefs(node))
            && StoredAs(node, Merged(m, node, now), now)
  {
    hide Normalized, IdentityOf, Identities, Dedup, Trim, Tidy;
    var own, given := RefOfNode(node), NodeRefs(node);
    assert RefOfNode(Merged(m, node, now)) == own;
    NodeRefsListed(node);
    OwnCovered(node);
    SubIdentities([], given);
    if node.id in m {
      var stored := NodeRefs(m[node.id]);
      NodeRefsListed(m[node.id]);
      ConcatShows(stored, given, own);
    } else {
      ListedAgain(given, own);
      NoIdentities();
    }
  }

  lemma NoIdentities()
    ensures Identities([]) == {}
  {
  }

  lemma ListedAgain(refs: seq<SourceRef>, own: SourceRef)
    requires Tidy(refs) && IdentityOf(Normalized(own)) in Identities(refs) + {NoIdentity}
    ensures Dedup(refs + [own]) == refs
  {
    hide Normalized, IdentityOf, Identities, Dedup;
    DedupFixed(refs);
    DedupAdds(refs, own);
  }

  lemma ConcatShows(stored: seq<SourceRef>, given: seq<SourceRef>, own: SourceRef)
    requires Tidy(stored) && Tidy(given) && IdentityOf(Normalized(own)) in Identities(given) + {NoIdentity}
    ensures var all := Dedup(stored + given);
            && stored <= all && Dedup(all + [own]) == all && Identities(all) == Identities(stored) + Identities(given)
  {
    hide Normalized, IdentityOf, Identities, Dedup, DistinctIdentities, AllNormal;
    var all := Dedup(stored + given);
    NormalOf(given);
    DedupConcat(stored, given);
    ListedAgain(all, own);
    OfEither(all, stored, given);
  }

  lemma NormalOf(refs: seq<SourceRef>)
    requires Tidy(refs)
    ensures AllNormal(refs)
  {
  }

  lemma OfEither(all: seq<SourceRef>, a: seq<SourceRef>, b: seq<SourceRef>)
    requires forall ref {:trigger ref in all} :: ref in all ==> ref in a || ref in b
    ensures Identities(all) <= Identities(a) + Identities(b)
  {
    hide IdentityOf;
  }

  lemma GivenAdd(list: seq<ManagedNode>, node: ManagedNode, id: string)
    ensures GivenAt(list + [node], id) == GivenAt(list, id) + if node.id == id then Identities(NodeRefs(node)) else {}
  {
    hide NodeRefs, IdentityOf;
    assert forall n :: n in list + [node] <==> n in list || n == node;
  }

  // Whatever is listed, and however often: the references stored under an id stay in front, and the
  // sources afterwards are those before together with those given.
  lemma {:induction false} UpsertedRefs(m: NodeMap, list: seq<ManagedNode>, now: nat, id: string)
    ensures var after := Applied(m, Upserts(m, list, now));
            && RefsAt(m, id) <= RefsAt(after, id)
            && Identities(RefsAt(after, id)) == Identities(RefsAt(m, id)) + GivenAt(list, id)
  {
    hide NodeRefs, IdentityOf, Identities, GivenAt, Merged;
    if list == [] {
      GivenNone(id);
    } else {
      var init, last := list[..|list| - 1], list[|list| - 1];
      assert list == init + [last];
      var ws := Upserts(m, init, now);
      var before := Applied(m, ws);
      UpsertedRefs(m, init, now, id);
      LogStep(m, ws, Put(Merged(before, last, now)));
      MergedShows(before, last, now);
      GivenAdd(init, last, id);
    }
  }

  lemma GivenNone(id: string)
    ensures GivenAt([], id) == {}
  {
  }

  lemma UpsertedFields(m: NodeMap, list: seq<ManagedNode>, now: nat, i: nat)
    requires LastAt(list, i)
    ensures var after := Applied(m, Upserts(m, list, now));
            list[i].id in after && StoredAs(list[i], after[list[i].id], now) && after[list[i].id].sourceRefs == NodeRefs(after[list[i].id])
  {
    hide Merged, NodeRefs, StoredAs;
    var ws := Upserts(m, list, now);
    forall j | i <= j < |ws| ensures ws[j].Put? && ws[j].Key() == list[j].id {
      UpsertAt(m, list, now, j);
      MergedId(Applied(m, Upserts(m, list[..j], now)), list[j], now);
    }
    UpsertAt(m, list, now, i);
    AppliedAt(m, ws, i);
    MergedShows(Applied(m, Upserts(m, list[..i], now)), list[i], now);
  }

  // A map after UpsertNodes, told without the way it is computed.
  ghost predicate Upserted(m: NodeMap, list: seq<ManagedNode>, now: nat, after: NodeMap) {
    && (forall id {:trigger Get(after, id)} :: (forall i :: 0 <= i < |list| ==> list[i].id != id) ==> Get(after, id) == Get(m, id))
    && (forall id {:trigger RefsAt(after, id)} ::
          RefsAt(m, id) <= RefsAt(after, id) && Identities(RefsAt(after, id)) == Identities(RefsAt(m, id)) + GivenAt(list, id))
    && (forall i {:trigger LastAt(list, i)} :: 0 <= i < |list| && LastAt(list, i) ==>
          list[i].id in after && StoredAs(list[i], after[list[i].id], now)
          && after[list[i].id].sourceRefs == NodeRefs(after[list[i].id]))
  }

  lemma UpsertsUpserted(m: NodeMap, list: seq<ManagedNode>, now: nat)
    ensures Upserted(m, list, now, Applied(m, Upserts(m, list, now)))
  {
    hide Merged, NodeRefs, StoredAs, RefsAt, GivenAt, Identities, Upserts, Applied, LastAt;
    var after := Applied(m, Upserts(m, list, now));
    forall id {:trigger Get(after, id)} | forall i :: 0 <= i < |list| ==> list[i].id != id ensures Get(after, id) == Get(m, id) {
      UpsertedOther(m, list, now, id);
    }
    forall id {:trigger RefsAt(after, id)}
      ensures RefsAt(m, id) <= RefsAt(after, id) && Identities(RefsAt(after, id)) == Identities(RefsAt(m, id)) + GivenAt(list, id) {
      UpsertedRefs(m, list, now, id);
    }
    forall i {:trigger LastAt(list, i)} | 0 <= i < |list| && LastAt(list, i)
      ensures list[i].id in after && StoredAs(list[i], after[list[i].id], now)
              && after[list[i].id].sourceRefs == NodeRefs(after[list[i].id]) {
      UpsertedFields(m, list, now, i);
    }
  }

  // ---- ApplyNodeChanges: what is given is stored in place of what was ----

  lemma ReplacedShows(node: ManagedNode, now: nat)
    ensures NodeRefs(Replaced(node, now)) == NodeRefs(node) && StoredAs(node, Replaced(node, now), now)
  {
    hide Normalized, IdentityOf, Identities, Dedup, Trim;
    var own, refs := RefOfNode(node), Dedup(node.sourceRefs);
    DedupAdds(node.sourceRefs, own);
    DedupTwice(node.sourceRefs);
    if refs == [] {
      assert [] + [own] == [own];
      DedupTwice([own]);
      OwnCovered(node);
      NodeRefsListed(node);
      DedupNone();
      DedupAdds([], own);
      ListedAgain(NodeRefs(node), own);
    } else {
      DedupAdds(refs, own);
    }
  }

  lemma DedupNone()
    ensures Dedup([]) == []
  {
  }

  ghost predicate Replacing(m: NodeMap, list: seq<ManagedNode>, deleted: seq<string>, now: nat, after: NodeMap) {
    && (forall id {:trigger Get(after, id)} :: id !in deleted && (forall i :: 0 <= i < |list| ==> list[i].id != id) ==> Get(after, id) == Get(m, id))
    && (forall id {:trigger id in deleted} :: id in deleted ==> id !in after)
    && (forall i {:trigger LastAt(list, i)} :: 0 <= i < |list| && LastAt(list, i) && list[i].id !in deleted ==>
          list[i].id in after && StoredAs(list[i], after[list[i].id], now) && NodeRefs(after[list[i].id]) == NodeRefs(list[i]))
  }

  lemma ChangedReplaces(m: NodeMap, list: seq<ManagedNode>, deleted: seq<string>, now: nat)
    ensures Replacing(m, list, deleted, now, Changed(m, list, deleted, now))
  {
    hide Replaced, NodeRefs, StoredAs, Applied, Drops;
    var ws := Replacements(list, now);
    var mid, after := Applied(m, ws), Changed(m, list, deleted, now);
    forall j | 0 <= j < |ws| ensures ws[j].Put? && ws[j].Key() == list[j].id { ReplacedId(list[j], now); }
    forall id {:trigger Get(after, id)} ensures Get(after, id) == if id in deleted then None else Get(mid, id) { DropsAt(mid, deleted, id); }
    forall id {:trigger Get(after, id)} | id !in deleted && forall i :: 0 <= i < |list| ==> list[i].id != id ensures Get(after, id) == Get(m, id) {
      forall w {:trigger w in ws} | w in ws ensures w.Key() != id { var j :| 0 <= j < |ws| && ws[j] == w; }
      AppliedOther(m, ws, id);
    }
    forall id {:trigger id in deleted} | id in deleted ensures id !in after { assert Get(after, id) == None; }
    forall i {:trigger LastAt(list, i)} | 0 <= i < |list| && LastAt(list, i) && list[i].id !in deleted
      ensures list[i].id in after && StoredAs(list[i], after[list[i].id], now) && NodeRefs(after[list[i].id]) == NodeRefs(list[i]) {
      AppliedAt(m, ws, i);
      ReplacedShows(list[i], now);
      assert Get(after, list[i].id) == Some(Replaced(list[i], now));
    }
  }

  lemma ReplacedId(node: ManagedNode, now: nat)
    ensures Replaced(node, now).id == node.id
  {
  }

  // ---- SetOrder: a known node has the position it is listed at last ----

  ghost predicate LastIdAt(ids: seq<string>, i: nat) {
    i < |ids| && ids[i] !in ids[i + 1..]
  }

  ghost predicate Reordered(m: NodeMap, ids: seq<string>, clock: nat -> nat, after: NodeMap) {
    && after.Keys == m.Keys
    && (forall id {:trigger after[id]} :: id in m && id !in ids ==> after[id] == m[id])
    && (forall i {:trigger LastIdAt(ids, i)} :: 0 <= i < |ids| && LastIdAt(ids, i) && ids[i] in m ==>
          after[ids[i]] == m[ids[i]].(order := i, updatedAt := clock(i)))
  }

  lemma {:induction false} ReordersReordered(m: NodeMap, ids: seq<string>, clock: nat -> nat)
    requires Keyed(m)
    ensures Reordered(m, ids, clock, Applied(m, Reorders(m, ids, clock)))
  {
    hide Applied, Reorders, Keyed;
    if ids == [] {
      NoneReordered(m, clock);
    } else {
      var init, last := ids[..|ids| - 1], ids[|ids| - 1];
      assert ids == init + [last];
      ReordersReordered(m, init, clock);
      ReordersLast(m, init, clock, last);
      hide Reordered;
      ReorderedMore(m, init, last, clock, Applied(m, Reorders(m, init, clock)), Applied(m, Reorders(m, ids, clock)));
    }
  }

  lemma NoneReordered(m: NodeMap, clock: nat -> nat)
    requires Keyed(m)
    ensures Reordered(m, [], clock, Applied(m, Reorders(m, [], clock)))
  {
  }

  // The last id listed, if it is known, and nothing else.
  lemma ReordersLast(m: NodeMap, init: seq<string>, clock: nat -> nat, last: string)
    requires Keyed(m)
    ensures var before, after := Applied(m, Reorders(m, init, clock)), Applied(m, Reorders(m, init + [last], clock));
            && (last in before ==> after == before[last := before[last].(order := |init|, updatedAt := clock(|init|))])
            && (last !in before ==> after == before)
            && (last in before ==> last in m && before[last] == m[last].(order := before[last].order, updatedAt := before[last].updatedAt))
  {
    hide Reorders, Keyed;
    var ids := init + [last];
    ReordersAdd(m, ids, clock, |init|);
    assert ids[..|init|] == init && ids[..|init| + 1] == ids;
    var ws := Reorders(m, init, clock);
    var before := Applied(m, ws);
    if last in before {
      LogStep(m, ws, Put(before[last].(order := |init|, updatedAt := clock(|init|))));
      ReordersKnown(m, init, clock, last);
      OrderedTwice(m, init, clock, last);
    }
  }

  lemma ReordersKnown(m: NodeMap, ids: seq<string>, clock: nat -> nat, id: string)
    requires Keyed(m)
    ensures id in Applied(m, Reorders(m, ids, clock)) <==> id in m
  {
    AppliedKeys(m, Reorders(m, ids, clock), id);
  }

  lemma ReorderedMore(m: NodeMap, init: seq<string>, last: string, clock: nat -> nat, before: NodeMap, after: NodeMap)
    requires Reordered(m, init, clock, before)
    requires last in before ==> last in m && before[last] == m[last].(order := before[last].order, updatedAt := before[last].updatedAt)
    requires if last in before then after == before[last := before[last].(order := |init|, updatedAt := clock(|init|))] else after == before
    ensures Reordered(m, init + [last], clock, after)
  {
    var ids := init + [last];
    forall i {:trigger LastIdAt(ids, i)} | 0 <= i < |ids| && LastIdAt(ids, i) && ids[i] in m
      ensures after[ids[i]] == m[ids[i]].(order := i, updatedAt := clock(i)) {
      if i < |init| {
        assert ids[i + 1..] == init[i + 1..] + [last];
        assert LastIdAt(init, i);
      }
    }
  }

  // Setting the order writes no field but the order and the time.
  lemma {:induction false} OrderedTwice(m: NodeMap, ids: seq<string>, clock: nat -> nat, id: string)
    requires Keyed(m) && id in m
    ensures var after := Applied(m, Reorders(m, ids, clock));
            id in after && after[id] == m[id].(order := after[id].order, updatedAt := after[id].updatedAt)
  {
    if ids != [] {
      var init, last := ids[..|ids| - 1], ids[|ids| - 1];
      assert ids == init + [last] && ids[..|init|] == init && ids[..|init| + 1] == ids;
      OrderedTwice(m, init, clock, id);
      ReordersAdd(m, ids, clock, |init|);
      var ws := Reorders(m, init, clock);
      var before := Applied(m, ws);
      if last in before { LogStep(m, ws, Put(before[last].(order := |init|, updatedAt := clock(|init|)))); }
    }
  }

  // ---- states put back, and states left by a crash ----

  ghost predicate PutBack(m: NodeMap, states: map<string, NodeState>, current: NodeState, now: nat, after: NodeMap) {
    && after.Keys == m.Keys
    && forall id {:trigger after[id]} :: id in m ==>
         if id in states && m[id].state == current then after[id] == m[id].(state := states[id], updatedAt := now)
         else after[id] == m[id]
  }

  lemma RestatedPutsBack(m: NodeMap, states: map<string, NodeState>, current: NodeState, now: nat)
    ensures PutBack(m, states, current, now, m + Restated(m, states, current, now))
  {
  }

  // The state of a node found in testing when the program starts.
  predicate FoundIn(node: ManagedNode, state: NodeState) {
    match state
    case InPool => node.inPool
    case Excluded => !node.inPool && !node.enabled
    case Parsed => !node.inPool && node.enabled && node.lastTestAt == 0
    case Failed => !node.inPool && node.enabled && node.lastTestAt != 0 && node.lastError != ""
    case Passed => !node.inPool && node.enabled && node.lastTestAt != 0 && node.lastError == ""
    case _ => false
  }

  ghost predicate NoneTesting(m: NodeMap, now: nat, after: NodeMap) {
    && after.Keys == m.Keys
    && forall id {:trigger after[id]} :: id in m ==>
         if m[id].state == Testing
         then FoundIn(m[id], after[id].state) && after[id] == m[id].(state := after[id].state, updatedAt := now)
         else after[id] == m[id]
  }

  lemma RecoveredNone(m: NodeMap, now: nat)
    ensures NoneTesting(m, now, m + Recovered(m, now))
  {
  }
}

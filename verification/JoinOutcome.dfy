/**
  What joining the pool leaves behind, in terms of what the node manager and the store reply: which
  nodes become members and which are lost.
 */
module JoinOutcome {
  import opened SourceRefs
  import opened Nodes
  import opened Options
  import opened Orders
  import opened StoreModel
  import opened StoreWrites
  import opened StorePool
  import opened StoreUndo
  import opened RuntimePairing
  import opened RefsKept
  import opened PoolJoin

  // ---- the replies ----

  datatype CreateReply = Created(port: nat) | Conflict | Rejected

  // Whether the configuration can be read, whether the duplicates can be deleted and the nodes stored;
  // the ports of a batch or else the reply for each node in turn, and whether a node in conflict can
  // be deleted; whether the new members can be stored.  `config` is what is configured afterwards.
  datatype JoinReplies = JoinReplies(
    listed: bool, drops: bool, stores: bool, batch: Option<seq<nat>>,
    each: nat -> CreateReply, forgets: nat -> bool, marks: bool, config: seq<ConfigNode>)

  function ListedNames(config: seq<ConfigNode>, listed: bool): set<string> {
    set node | node in config && listed && Trim(node.name) != "" :: Trim(node.name)
  }

  function ListedRoutes(config: seq<ConfigNode>, listed: bool): set<Route> {
    set node | node in config && listed && Trim(node.uri) != "" :: Route(Trim(node.uri), node.chain)
  }

  // ---- what is lost and what joins ----

  function Twice(ids: seq<string>): set<string> {
    set i, j | 0 <= i < j < |ids| && ids[i] == ids[j] :: ids[i]
  }

  // Missing after a deletion: what was listed, or, if it fails, what was listed twice.
  function Dropped(ids: seq<string>, commits: bool): set<string> {
    if commits then Members(ids) else Twice(ids)
  }

  // Of the first nodes: those given a port, and those deleted because of a conflict.
  function CreatedIds(joiners: seq<string>, n: nat, replies: JoinReplies): set<string> {
    set k | 0 <= k < n && k < |joiners| && replies.each(k).Created? :: joiners[k]
  }

  function RefusedIds(joiners: seq<string>, n: nat, replies: JoinReplies): set<string> {
    set k | 0 <= k < n && k < |joiners| && replies.each(k).Conflict? && replies.forgets(k) :: joiners[k]
  }

  function Refused(joiners: seq<string>, replies: JoinReplies): set<string> {
    if replies.batch.Some? then {} else RefusedIds(joiners, |joiners|, replies)
  }

  function PortIds(joiners: seq<string>, replies: JoinReplies): set<string> {
    match replies.batch
    case Some(ports) => Members(if |ports| < |joiners| then joiners[..|ports|] else joiners)
    case None => CreatedIds(joiners, |joiners|, replies)
  }

  // The nodes that are gone after joining: duplicates and nodes the manager has a conflict with.
  function Lost(m: NodeMap, ids: seq<string>, routes: set<Route>, replies: JoinReplies): set<string> {
    var joiners := Joiners(m, ids, routes);
    (Dropped(Duplicates(m, ids, routes), replies.drops) - Members(joiners)) + Refused(joiners, replies)
  }

  // The nodes that are members after joining and were not before.
  function Ported(m: NodeMap, ids: seq<string>, routes: set<Route>, replies: JoinReplies): set<string> {
    PortIds(Joiners(m, ids, routes), replies) - Refused(Joiners(m, ids, routes), replies)
  }

  predicate NoneRejected(joiners: seq<string>, n: nat, replies: JoinReplies) {
    forall k :: 0 <= k < n && k < |joiners| ==> !replies.each(k).Rejected?
  }

  // The manager is asked to configure nodes.
  predicate Asked(m: NodeMap, ids: seq<string>, routes: set<Route>, replies: JoinReplies) {
    Joiners(m, ids, routes) != [] && replies.stores
  }

  predicate JoinOk(m: NodeMap, ids: seq<string>, routes: set<Route>, replies: JoinReplies) {
    var joiners := Joiners(m, ids, routes);
    && ids != []
    && (joiners != [] ==>
          && replies.stores && (replies.batch.Some? || NoneRejected(joiners, |joiners|, replies))
          && (replies.marks || Ported(m, ids, routes, replies) == {}))
  }

  // The manager has a conflict with the node, and it can be deleted.
  ghost predicate GivenUp(joiners: seq<string>, replies: JoinReplies, id: string) {
    replies.batch.None? && exists k :: 0 <= k < |joiners| && joiners[k] == id && replies.each(k).Conflict? && replies.forgets(k)
  }

  // Lost by a list without repeats: the duplicates if they can be deleted, and whatever is in conflict.
  lemma LostExactly(m: NodeMap, ids: seq<string>, routes: set<Route>, replies: JoinReplies, id: string)
    requires NoRepeats(ids)
    ensures id in Lost(m, ids, routes, replies) <==>
              || (id in Duplicates(m, ids, routes) && replies.drops)
              || GivenUp(Joiners(m, ids, routes), replies, id)
  {
    hide Joiners, Duplicates;
    JoinersOrDuplicates(m, ids, routes);
    assert Twice(Duplicates(m, ids, routes)) == {};
  }

  lemma LostJoinable(m: NodeMap, ids: seq<string>, routes: set<Route>, replies: JoinReplies)
    ensures Lost(m, ids, routes, replies) <= Joinable(m, Members(ids)) && Ported(m, ids, routes, replies) <= Joinable(m, Members(ids))
    ensures ids == [] ==> Lost(m, ids, routes, replies) == {} && Ported(m, ids, routes, replies) == {}
  {
    hide Joiners, Duplicates, Joinable;
    JoinersOrDuplicates(m, ids, routes);
    if ids == [] {
      NothingListed(m, routes);
    }
  }

  lemma NothingListed(m: NodeMap, routes: set<Route>)
    ensures Joiners(m, [], routes) == [] && Duplicates(m, [], routes) == []
  {
  }

  // ---- steps that make no member and change no reference ----

  function NewMembers(a: NodeMap, b: NodeMap): set<string> {
    set id | id in b && Listed(b[id]) && !(id in a && Listed(a[id]))
  }

  ghost predicate NoNew(a: NodeMap, b: NodeMap) {
    forall id {:trigger b[id]} :: id in b && Listed(b[id]) ==> id in a && Listed(a[id])
  }

  ghost predicate Tame(was: NodeMap, m: NodeMap) {
    Keyed(m) && KeepsRefs(was, m) && NoNew(was, m)
  }

  lemma TameSame(m: NodeMap)
    requires Keyed(m)
    ensures Tame(m, m)
  {
    KeepsSame(m);
  }

  lemma TameIs(was: NodeMap, m: NodeMap)
    requires Tame(was, m)
    ensures Keyed(m) && KeepsRefs(was, m) && NewMembers(was, m) == {}
  {
    hide Listed, KeepsRefs;
  }

  // The content of some earlier, tame state at every key.
  lemma TameFrom(was: NodeMap, m: NodeMap)
    requires forall id | id in m :: exists mid :: Tame(was, mid) && id in mid && mid[id] == m[id]
    ensures Tame(was, m)
  {
    hide NodeRefs, Listed;
    forall id {:trigger m[id]} | id in m
      ensures m[id].id == id && id in was && NodeRefs(m[id]) == NodeRefs(was[id]) && (Listed(m[id]) ==> Listed(was[id]))
    {
      var mid :| Tame(was, mid) && id in mid && mid[id] == m[id];
    }
  }

  lemma DeletedAt(m: NodeMap, ids: seq<string>, ok: bool, after: NodeMap, id: string)
    requires after == if ok then Applied(m, Drops(ids)) else Undone(Applied(m, Drops(ids)), Log(m, Drops(ids)))
    ensures Get(after, id) == if id in Dropped(ids, ok) then None else Get(m, id)
  {
    var ws := Drops(ids);
    if ok {
      DropsAt(m, ids, id);
    } else {
      UndoneAt(Applied(m, ws), Log(m, ws), id);
      LogKeys(m, ws);
      if id in Keys(ws) {
        var j := LastOf(ws, id);
        LogAt(m, ws, j);
        assert ws[..j] == Drops(ids[..j]) && ids[j] == id;
        DropsAt(m, ids[..j], id);
        TwiceAt(ids, j);
      } else {
        UndoneOther(m, ws, id);
        forall i | 0 <= i < |ids| ensures ids[i] != id { assert ws[i] in ws && ws[i].Key() == ids[i]; }
      }
    }
  }

  lemma TwiceAt(ids: seq<string>, j: nat)
    requires j < |ids| && forall k :: j < k < |ids| ==> ids[k] != ids[j]
    ensures ids[j] in Twice(ids) <==> ids[j] in ids[..j]
  {
    if ids[j] in ids[..j] {
      var i :| 0 <= i < j && ids[..j][i] == ids[j];
      assert ids[i] == ids[j];
    }
  }

  lemma DroppedWithin(ids: seq<string>, ok: bool)
    ensures Dropped(ids, ok) <= Members(ids) && (NoRepeats(ids) && !ok ==> Dropped(ids, ok) == {})
  {
  }

  lemma TameDeleted(was: NodeMap, m: NodeMap, ids: seq<string>, ok: bool, after: NodeMap)
    requires Tame(was, m)
    requires after == if ok then Applied(m, Drops(ids)) else Undone(Applied(m, Drops(ids)), Log(m, Drops(ids)))
    ensures Tame(was, after) && after.Keys == m.Keys - Dropped(ids, ok) && SameOutside(after, m, Dropped(ids, ok))
  {
    hide Undone, Applied, Log, Drops, Dropped, Tame;
    forall id ensures Get(after, id) == if id in Dropped(ids, ok) then None else Get(m, id) { DeletedAt(m, ids, ok, after, id); }
    forall id | id in after ensures id in m && m[id] == after[id] { assert Get(after, id) == Get(m, id); }
    forall id ensures id in after <==> id in m && id !in Dropped(ids, ok) { assert Get(after, id) == None <==> id !in after; }
    TameFrom(was, after);
  }

  // Nodes read from the first state, and no members.
  ghost predicate AsStored(was: NodeMap, list: seq<ManagedNode>) {
    forall node {:trigger node in list} :: node in list ==> node.id in was && !Listed(node) && NodeRefs(node) == NodeRefs(was[node.id])
  }

  lemma TameWrite(was: NodeMap, m: NodeMap, node: ManagedNode, now: nat)
    requires Tame(was, m) && node.id in was && !Listed(node) && NodeRefs(node) == NodeRefs(was[node.id])
    ensures Tame(was, m[node.id := Merged(m, node, now)])
  {
    hide NodeRefs, Merged;
    MergedRefs(m, node, now, NodeRefs(was[node.id]));
    MergedRuntime(m, node, now);
  }

  lemma {:induction false} TameUpserts(was: NodeMap, m: NodeMap, list: seq<ManagedNode>, now: nat)
    requires Tame(was, m) && AsStored(was, list)
    ensures Tame(was, Applied(m, Upserts(m, list, now))) && Applied(m, Upserts(m, list, now)).Keys == m.Keys + IdsOf(list)
  {
    hide Merged, NodeRefs, Tame, Listed, Applied, Upserts, Log, AsStored;
    if list == [] {
      UpsertsNone(m, now);
      PutsNone(m);
      assert IdsOf(list) == {};
    } else {
      var init, last := list[..|list| - 1], list[|list| - 1];
      assert list == init + [last];
      AsStoredParts(was, list, |init|);
      TameUpserts(was, m, init, now);
      UpsertsAdd(m, list, now, |init|);
      assert list[..|list|] == list;
      var mid := Applied(m, Upserts(m, init, now));
      LogStep(m, Upserts(m, init, now), Put(Merged(mid, last, now)));
      TameWrite(was, mid, last, now);
      assert IdsOf(list) == IdsOf(init) + {last.id};
    }
  }

  lemma AsStoredParts(was: NodeMap, list: seq<ManagedNode>, j: nat)
    requires AsStored(was, list) && j <= |list|
    ensures AsStored(was, list[..j])
    ensures j < |list| ==> list[j].id in was && !Listed(list[j]) && NodeRefs(list[j]) == NodeRefs(was[list[j].id])
  {
    hide NodeRefs, Listed;
    assert forall node :: node in list[..j] ==> node in list;
    if j < |list| {
      assert list[j] in list;
    }
  }

  lemma TameUpserted(was: NodeMap, m: NodeMap, list: seq<ManagedNode>, now: nat, ok: bool, after: NodeMap)
    requires Tame(was, m) && AsStored(was, list)
    requires var ws := Upserts(m, list, now); after == if ok then Applied(m, ws) else Undone(Applied(m, ws), Log(m, ws))
    ensures Tame(was, after) && (ok ==> after.Keys == m.Keys + IdsOf(list)) && SameOutside(after, m, IdsOf(list))
  {
    hide Undone, Applied, Log, Upserts, Tame, NodeRefs, Listed, Get;
    UpsertOutside(m, list, now, ok, after);
    if ok {
      TameUpserts(was, m, list, now);
    } else {
      forall id | id in after ensures exists mid :: Tame(was, mid) && id in mid && mid[id] == after[id] {
        var mid := BeforeUndone(was, m, list, now, id);
      }
      TameFrom(was, after);
    }
  }

  lemma BeforeUndone(was: NodeMap, m: NodeMap, list: seq<ManagedNode>, now: nat, id: string) returns (mid: NodeMap)
    requires Tame(was, m) && AsStored(was, list)
    ensures var ws := Upserts(m, list, now); Tame(was, mid) && Get(Undone(Applied(m, ws), Log(m, ws)), id) == Get(mid, id)
    ensures var ws := Upserts(m, list, now); id in Undone(Applied(m, ws), Log(m, ws)) ==> id in mid && mid[id] == Undone(Applied(m, ws), Log(m, ws))[id]
  {
    hide Merged, NodeRefs, Tame, Listed, AsStored, Applied, Upserts, Log, Undone;
    var ws := Upserts(m, list, now);
    UndoneAt(Applied(m, ws), Log(m, ws), id);
    LogKeys(m, ws);
    if id in Keys(ws) {
      var j := LastOf(ws, id);
      LogAt(m, ws, j);
      UpsertAt(m, list, now, j);
      AsStoredParts(was, list, j);
      TameUpserts(was, m, list[..j], now);
      mid := Applied(m, ws[..j]);
    } else {
      UndoneOther(m, ws, id);
      mid := m;
    }
  }

  lemma UpsertOutside(m: NodeMap, list: seq<ManagedNode>, now: nat, ok: bool, after: NodeMap)
    requires var ws := Upserts(m, list, now); after == if ok then Applied(m, ws) else Undone(Applied(m, ws), Log(m, ws))
    ensures SameOutside(after, m, IdsOf(list))
  {
    hide Applied, Undone, Log, Get, Merged;
    var ws := Upserts(m, list, now);
    forall id | id !in IdsOf(list) ensures Get(after, id) == Get(m, id) {
      forall i | 0 <= i < |list| ensures list[i].id != id && ws[i].Key() == list[i].id {
        assert list[i] in list;
        UpsertAt(m, list, now, i);
      }
      if ok {
        UpsertedOther(m, list, now, id);
      } else {
        UndoneOther(m, ws, id);
      }
    }
  }

  // ---- marking the new members ----

  lemma MarkOutside(m: NodeMap, ports: map<string, nat>, ids: seq<string>, top: int, now: nat, marked: NodeMap)
    requires Enumerates(ids, ports.Keys) && (marked == Marked(m, ports, ids, top, now) || marked == map[])
    ensures SameOutside(m + marked, m, ports.Keys) && (m + marked).Keys == m.Keys
  {
    hide Marked;
    forall id | id !in ports ensures Get(m + marked, id) == Get(m, id) { MarkedKeys(m, ports, ids, top, now, id); }
  }

  // Marking nodes that were no members makes exactly the marked ones new members.
  lemma NewMarked(was: NodeMap, mid: NodeMap, ports: map<string, nat>, ids: seq<string>, top: int, now: nat)
    requires Tame(was, mid) && Enumerates(ids, ports.Keys)
    requires forall id {:trigger id in ports} :: id in ports ==> !(id in was && Listed(was[id]))
    ensures NewMembers(was, mid + Marked(mid, ports, ids, top, now)) == Marked(mid, ports, ids, top, now).Keys == ports.Keys * mid.Keys
  {
    hide Listed, Marked, KeepsRefs, Keyed;
    var marked := Marked(mid, ports, ids, top, now);
    forall id ensures (id in NewMembers(was, mid + marked) <==> id in marked) && (id in marked <==> id in ports && id in mid) {
      MarkedKeys(mid, ports, ids, top, now, id);
      if id in mid {
        MarkedNode(mid, ports, ids, top, now, id);
      }
    }
  }

  // ---- the ports ----

  lemma CreatedStep(joiners: seq<string>, n: nat, replies: JoinReplies)
    requires n < |joiners|
    ensures CreatedIds(joiners, n + 1, replies) == CreatedIds(joiners, n, replies) + if replies.each(n).Created? then {joiners[n]} else {}
    ensures RefusedIds(joiners, n + 1, replies) ==
            RefusedIds(joiners, n, replies) + if replies.each(n).Conflict? && replies.forgets(n) then {joiners[n]} else {}
    ensures replies.each(n).Rejected? ==> !NoneRejected(joiners, |joiners|, replies)
    ensures NoneRejected(joiners, n + 1, replies) <==> NoneRejected(joiners, n, replies) && !replies.each(n).Rejected?
  {
  }

  lemma CreatedNone(joiners: seq<string>, replies: JoinReplies)
    ensures CreatedIds(joiners, 0, replies) == {} && RefusedIds(joiners, 0, replies) == {} && NoneRejected(joiners, 0, replies)
  {
  }

  lemma PortsWithin(joiners: seq<string>, replies: JoinReplies)
    ensures PortIds(joiners, replies) <= Members(joiners) && Refused(joiners, replies) <= Members(joiners)
  {
  }

  // The one id of a list.
  lemma OneId(id: string, commits: bool)
    ensures Members([id]) == {id} && NoRepeats([id]) && Dropped([id], commits) == if commits then {id} else {}
  {
  }
}

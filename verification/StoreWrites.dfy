/**
  What each mutator of the node store writes, and the record it keeps for undoing its writes.
 */
module StoreWrites {
  import opened SourceRefs
  import opened Nodes
  import opened Options
  import opened Orders
  import opened StoreModel

  // ---- what the mutators write ----

  // A node as `UpsertNodes` stores it: references merged with those already stored.
  function Merged(m: NodeMap, node: ManagedNode, now: nat): (r: ManagedNode)
    ensures r.id == node.id && r.updatedAt == now
  {
    hide Dedup, NodeRefs;
    var refs := if node.id in m then Dedup(NodeRefs(m[node.id]) + NodeRefs(node)) else NodeRefs(node);
    Stamped(node.(sourceRefs := refs), now)
  }

  // A node as `ApplyNodeChanges` stores it: its own references, or else the one in its fields.
  function Replaced(node: ManagedNode, now: nat): (r: ManagedNode)
    ensures r.id == node.id && r.updatedAt == now
  {
    hide Dedup, NodeRefs;
    var refs := Dedup(node.sourceRefs);
    Stamped(node.(sourceRefs := if refs == [] then NodeRefs(node.(sourceRefs := [])) else refs), now)
  }

  function Stamped(node: ManagedNode, now: nat): ManagedNode {
    node.(createdAt := if node.createdAt == 0 then now else node.createdAt, updatedAt := now)
  }

  function Upserts(m: NodeMap, nodes: seq<ManagedNode>, now: nat): (ws: seq<Write>)
    ensures |ws| == |nodes|
  {
    if nodes == [] then []
    else
      var init := Upserts(m, nodes[..|nodes| - 1], now);
      init + [Put(Merged(Applied(m, init), nodes[|nodes| - 1], now))]
  }

  lemma {:induction false} UpsertAt(m: NodeMap, nodes: seq<ManagedNode>, now: nat, i: nat)
    requires i < |nodes|
    ensures Upserts(m, nodes, now)[..i] == Upserts(m, nodes[..i], now)
    ensures Upserts(m, nodes, now)[i] == Put(Merged(Applied(m, Upserts(m, nodes[..i], now)), nodes[i], now))
  {
    hide Merged;
    var init := nodes[..|nodes| - 1];
    if i < |init| {
      UpsertAt(m, init, now, i);
      assert init[..i] == nodes[..i];
    }
  }

  function Replacements(nodes: seq<ManagedNode>, now: nat): (ws: seq<Write>)
    ensures |ws| == |nodes| && forall i :: 0 <= i < |ws| ==> ws[i] == Put(Replaced(nodes[i], now))
  {
    seq(|nodes|, i requires 0 <= i < |nodes| => Put(Replaced(nodes[i], now)))
  }

  function Drops(ids: seq<string>): (ws: seq<Write>)
    ensures |ws| == |ids| && forall i :: 0 <= i < |ws| ==> ws[i] == Drop(ids[i])
  {
    seq(|ids|, i requires 0 <= i < |ids| => Drop(ids[i]))
  }

  function Changed(m: NodeMap, list: seq<ManagedNode>, deleted: seq<string>, now: nat): NodeMap {
    Applied(Applied(m, Replacements(list, now)), Drops(deleted))
  }

  // `SetOrder`: the i-th listed node gets order i; an unknown id is passed over.
  function Reorders(m: NodeMap, ids: seq<string>, clock: nat -> nat): (ws: seq<Write>)
    requires Keyed(m)
    ensures forall w {:trigger w in ws} :: w in ws ==> w.Put? && w.node.id in ids && w.node.id in m
  {
    if ids == [] then []
    else
      var init, i, id := Reorders(m, ids[..|ids| - 1], clock), |ids| - 1, ids[|ids| - 1];
      var now := Applied(m, init);
      AppliedKeyed(m, init);
      AppliedKeys(m, init, id);
      if id in now then init + [Put(now[id].(order := i, updatedAt := clock(i)))] else init
  }

  // A map written by overwriting nodes it already has keeps its keys.
  lemma {:induction false} AppliedKeys(m: NodeMap, ws: seq<Write>, id: string)
    requires forall w {:trigger w in ws} :: w in ws ==> w.Put? && w.node.id in m
    ensures id in Applied(m, ws) <==> id in m
  {
    if ws != [] {
      var init := ws[..|ws| - 1];
      assert ws[|ws| - 1] in ws && forall w :: w in init ==> w in ws;
      AppliedKeys(m, init, id);
    }
  }

  // The record `ApplyNodeChanges` keeps: a deletion never overwrites an entry.
  function ChangeLog(m: NodeMap, puts: seq<Write>, deleted: seq<string>): UndoLog {
    (map id | id in deleted :: Get(m, id)) + Log(m, puts)
  }

  lemma UndoneAt(m: NodeMap, log: UndoLog, id: string)
    ensures Get(Undone(m, log), id) == if id in log then log[id] else Get(m, id)
  {
  }

  lemma LogStep(m: NodeMap, ws: seq<Write>, w: Write)
    ensures Log(m, ws + [w]) == Log(m, ws)[w.Key() := Get(Applied(m, ws), w.Key())]
    ensures Applied(m, ws + [w]) == Written(Applied(m, ws), w)
  {
    assert (ws + [w])[..|ws|] == ws;
  }

  function Puts(nodes: seq<ManagedNode>): (ws: seq<Write>)
    ensures |ws| == |nodes| && forall i :: 0 <= i < |ws| ==> ws[i] == Put(nodes[i])
  {
    seq(|nodes|, i requires 0 <= i < |nodes| => Put(nodes[i]))
  }

  // ---- one more write, and none ----

  lemma UpsertsAdd(m: NodeMap, nodes: seq<ManagedNode>, now: nat, i: nat)
    requires i < |nodes|
    ensures var ws := Upserts(m, nodes[..i], now);
            Upserts(m, nodes[..i + 1], now) == ws + [Put(Merged(Applied(m, ws), nodes[i], now))]
  {
    hide Merged;
    assert nodes[..i + 1][..i] == nodes[..i];
  }

  lemma ReplacementsAdd(nodes: seq<ManagedNode>, now: nat, i: nat)
    requires i < |nodes|
    ensures Replacements(nodes[..i + 1], now) == Replacements(nodes[..i], now) + [Put(Replaced(nodes[i], now))]
  {
    hide Replaced;
  }

  lemma DropsAdd(m: NodeMap, ids: seq<string>, id: string)
    ensures Applied(m, Drops(ids + [id])) == Applied(m, Drops(ids)) - {id}
    ensures Log(m, Drops(ids + [id])) == Log(m, Drops(ids))[id := Get(Applied(m, Drops(ids)), id)]
  {
    assert Drops(ids + [id]) == Drops(ids) + [Drop(id)];
    LogStep(m, Drops(ids), Drop(id));
  }

  lemma PutsNone(m: NodeMap)
    ensures Puts([]) == [] && Applied(m, Puts([])) == m && Log(m, Puts([])) == map[]
  {
  }

  lemma DropsNone(m: NodeMap)
    ensures Drops([]) == [] && Applied(m, Drops([])) == m && Log(m, Drops([])) == map[]
  {
  }

  lemma UpsertsNone(m: NodeMap, now: nat)
    ensures Upserts(m, [], now) == []
  {
  }

  lemma ReplacementsNone(now: nat)
    ensures Replacements([], now) == []
  {
  }

  lemma ReordersNone(m: NodeMap, clock: nat -> nat)
    requires Keyed(m)
    ensures Reorders(m, [], clock) == []
  {
  }

  lemma ReordersAdd(m: NodeMap, ids: seq<string>, clock: nat -> nat, i: nat)
    requires Keyed(m) && i < |ids|
    ensures var ws := Reorders(m, ids[..i], clock);
            var now := Applied(m, ws);
            && (ids[i] in now ==> now[ids[i]].id == ids[i])
            && Reorders(m, ids[..i + 1], clock) ==
               if ids[i] in now then ws + [Put(now[ids[i]].(order := i, updatedAt := clock(i)))] else ws
  {
    assert ids[..i + 1][..i] == ids[..i];
    AppliedKeyed(m, Reorders(m, ids[..i], clock));
  }

  lemma ChangeLogNone(m: NodeMap, puts: seq<Write>)
    ensures ChangeLog(m, puts, []) == Log(m, puts)
  {
  }

  lemma ChangedIs(m: NodeMap, list: seq<ManagedNode>, deleted: seq<string>, now: nat)
    ensures Changed(m, list, deleted, now) == Applied(Applied(m, Replacements(list, now)), Drops(deleted))
  {
  }

  lemma GetAt(m: NodeMap, id: string)
    ensures Get(m, id) == if id in m then Some(m[id]) else None
  {
  }

  // ---- rewriting nodes in place, in the order of a map's iteration ----

  // What `RestoreNodeStatesIfCurrent` changes.
  function Restated(m: NodeMap, states: map<string, NodeState>, current: NodeState, now: nat): NodeMap {
    map id | id in m && id in states && m[id].state == current :: m[id].(state := states[id], updatedAt := now)
  }

  lemma RestatedKeys(m: NodeMap, states: map<string, NodeState>, current: NodeState, now: nat)
    ensures Restated(m, states, current, now).Keys <= states.Keys * m.Keys
  {
  }

  lemma RestatedAt(m: NodeMap, states: map<string, NodeState>, current: NodeState, now: nat, id: string)
    requires id in states
    ensures id in Restated(m, states, current, now) <==> id in m && m[id].state == current
    ensures id in Restated(m, states, current, now) ==>
              Restated(m, states, current, now)[id] == m[id].(state := states[id], updatedAt := now)
  {
  }

  // What a node found in testing at startup goes back to.
  function StateBeforeTest(node: ManagedNode): (s: NodeState)
    ensures s != Testing
  {
    if node.inPool then NodeState.InPool
    else if !node.enabled then Excluded
    else if node.lastTestAt == 0 then Parsed
    else if node.lastError != "" then Failed
    else Passed
  }

  function Recovered(m: NodeMap, now: nat): NodeMap {
    map id | id in m && m[id].state == Testing :: m[id].(state := StateBeforeTest(m[id]), updatedAt := now)
  }

  lemma RecoveredKeys(m: NodeMap, now: nat)
    ensures Recovered(m, now).Keys <= m.Keys
  {
  }

  lemma RecoveredAt(m: NodeMap, now: nat, id: string)
    requires id in m
    ensures id in Recovered(m, now) <==> m[id].state == Testing
    ensures id in Recovered(m, now) ==> Recovered(m, now)[id] == m[id].(state := StateBeforeTest(m[id]), updatedAt := now)
  {
  }

  // The nodes rewritten so far are in memory, in the list to write and, by their old values, in the record.
  ghost predicate Recorded(was: NodeMap, nodes: NodeMap, done: NodeMap, updated: seq<ManagedNode>, previous: UndoLog) {
    && nodes == was + done
    && Applied(map[], Puts(updated)) == done
    && |updated| == |done|
    && previous == Firsts(was, done)
  }

  function Firsts(was: NodeMap, done: NodeMap): UndoLog {
    map id | id in done && id in was :: Some(was[id])
  }

  lemma AllTodo(changes: NodeMap, todo: set<string>)
    requires changes.Keys <= todo
    ensures changes - todo == map[] && changes - {} == changes
  {
  }

  lemma LessTodo(changes: NodeMap, todo: set<string>, id: string)
    requires id in todo
    ensures id in changes ==> changes - (todo - {id}) == (changes - todo)[id := changes[id]]
    ensures id !in changes ==> changes - (todo - {id}) == changes - todo
  {
  }

  lemma RecordedStarts(was: NodeMap)
    ensures Recorded(was, was, map[], [], map[])
  {
  }

  lemma PutsAdd(m: NodeMap, nodes: seq<ManagedNode>, node: ManagedNode)
    ensures Puts(nodes + [node]) == Puts(nodes) + [Put(node)]
    ensures Applied(m, Puts(nodes + [node])) == Applied(m, Puts(nodes))[node.id := node]
    ensures Log(m, Puts(nodes + [node])) == Log(m, Puts(nodes))[node.id := Get(Applied(m, Puts(nodes)), node.id)]
  {
    assert Puts(nodes + [node]) == Puts(nodes) + [Put(node)];
    LogStep(m, Puts(nodes), Put(node));
  }

  lemma FirstsAdd(was: NodeMap, done: NodeMap, id: string, node: ManagedNode)
    requires id in was && id !in done
    ensures Firsts(was, done[id := node]) == Firsts(was, done)[id := Some(was[id])]
  {
  }

  lemma RecordedAdds(was: NodeMap, nodes: NodeMap, done: NodeMap, updated: seq<ManagedNode>, previous: UndoLog, id: string, node: ManagedNode)
    requires Recorded(was, nodes, done, updated, previous)
    requires id in was && id !in done && node.id == id
    ensures id in nodes && nodes[id] == was[id]
    ensures Recorded(was, nodes[id := node], done[id := node], updated + [node], previous[id := Some(was[id])])
  {
    hide Applied, Firsts;
    PutsAdd(map[], updated, node);
    FirstsAdd(was, done, id, node);
    assert was + done[id := node] == nodes[id := node];
  }

  lemma RecordedPasses(was: NodeMap, nodes: NodeMap, done: NodeMap, updated: seq<ManagedNode>, previous: UndoLog, id: string)
    requires Recorded(was, nodes, done, updated, previous) && id !in done
    ensures Get(nodes, id) == Get(was, id)
  {
  }

  lemma RestatedStep(was: NodeMap, nodes: NodeMap, states: map<string, NodeState>, current: NodeState, now: nat,
                     todo: set<string>, updated: seq<ManagedNode>, previous: UndoLog, id: string)
    requires Keyed(was) && id in todo && id in states
    requires Recorded(was, nodes, Restated(was, states, current, now) - todo, updated, previous)
    ensures var rest := Restated(was, states, current, now) - (todo - {id});
            if id in nodes && nodes[id].state == current then
              var node := nodes[id].(state := states[id], updatedAt := now);
              Recorded(was, nodes[id := node], rest, updated + [node], previous[id := Some(nodes[id])])
            else Recorded(was, nodes, rest, updated, previous)
  {
    hide Recorded, Restated;
    var changes := Restated(was, states, current, now);
    RestatedAt(was, states, current, now, id);
    RecordedPasses(was, nodes, changes - todo, updated, previous, id);
    if id in changes {
      RecordedAdds(was, nodes, changes - todo, updated, previous, id, changes[id]);
    }
    LessTodo(changes, todo, id);
  }

  lemma RecordedDone(was: NodeMap, nodes: NodeMap, done: NodeMap, updated: seq<ManagedNode>, previous: UndoLog)
    requires Recorded(was, nodes, done, updated, previous) && done.Keys <= was.Keys
    ensures nodes == was + done && Applied(map[], Puts(updated)) == done && |updated| == |done|
    ensures updated == [] <==> done == map[]
    ensures Undone(nodes, previous) == was
  {
    hide Applied;
    FirstsUndo(was, done);
  }

  lemma FirstsUndo(was: NodeMap, done: NodeMap)
    requires done.Keys <= was.Keys
    ensures Undone(was + done, Firsts(was, done)) == was
  {
    forall id ensures Get(Undone(was + done, Firsts(was, done)), id) == Get(was, id) { UndoneAt(was + done, Firsts(was, done), id); }
    SameMaps(Undone(was + done, Firsts(was, done)), was);
  }

  lemma {:induction false} PutsMerge(table: NodeMap, nodes: seq<ManagedNode>)
    ensures Applied(table, Puts(nodes)) == Applied(Applied(table, Puts(nodes)), Drops([])) == table + Applied(map[], Puts(nodes))
  {
    if nodes != [] {
      var init, last := nodes[..|nodes| - 1], nodes[|nodes| - 1];
      PutsMerge(table, init);
      assert Puts(nodes) == Puts(init) + [Put(last)];
      LogStep(table, Puts(init), Put(last));
      LogStep(map[], Puts(init), Put(last));
    }
  }

  lemma DropsOther(m: NodeMap, ids: seq<string>, id: string)
    requires id !in ids
    ensures Get(Applied(m, Drops(ids)), id) == Get(m, id)
  {
    forall w {:trigger w in Drops(ids)} | w in Drops(ids) ensures w.Key() != id {
      var j :| 0 <= j < |ids| && Drops(ids)[j] == w;
    }
    AppliedOther(m, Drops(ids), id);
  }

  lemma LogStepChange(m: NodeMap, puts: seq<Write>, deleted: seq<string>, i: nat)
    requires i < |deleted|
    ensures ChangeLog(m, puts, deleted[..i + 1]) ==
            if deleted[i] in ChangeLog(m, puts, deleted[..i]) then ChangeLog(m, puts, deleted[..i])
            else ChangeLog(m, puts, deleted[..i])[deleted[i] := Get(m, deleted[i])]
  {
    assert deleted[..i + 1] == deleted[..i] + [deleted[i]];
    assert forall id :: id in deleted[..i + 1] <==> id in deleted[..i] || id == deleted[i];
  }

  lemma DropStep(m: NodeMap, puts: seq<Write>, deleted: seq<string>, i: nat)
    requires i < |deleted|
    ensures Applied(Applied(m, puts), Drops(deleted[..i + 1])) == Applied(Applied(m, puts), Drops(deleted[..i])) - {deleted[i]}
    ensures deleted[i] !in ChangeLog(m, puts, deleted[..i]) ==> Get(Applied(Applied(m, puts), Drops(deleted[..i])), deleted[i]) == Get(m, deleted[i])
    ensures ChangeLog(m, puts, deleted[..i + 1]) ==
            if deleted[i] in ChangeLog(m, puts, deleted[..i]) then ChangeLog(m, puts, deleted[..i])
            else ChangeLog(m, puts, deleted[..i])[deleted[i] := Get(m, deleted[i])]
  {
    hide Log;
    var id, mid := deleted[i], Applied(m, puts);
    LogStepChange(m, puts, deleted, i);
    assert Drops(deleted[..i + 1]) == Drops(deleted[..i]) + [Drop(id)];
    LogStep(mid, Drops(deleted[..i]), Drop(id));
    if id !in ChangeLog(m, puts, deleted[..i]) {
      LogKeys(m, puts);
      forall w {:trigger w in puts} | w in puts ensures w.Key() != id { assert w.Key() in Keys(puts); }
      AppliedOther(m, puts, id);
      DropsOther(mid, deleted[..i], id);
    }
  }

  // ---- lists of a map's nodes ----

  function Values(m: NodeMap, keys: seq<string>): (r: seq<ManagedNode>)
    requires forall id :: id in keys ==> id in m
    ensures |r| == |keys|
  {
    seq(|keys|, i requires 0 <= i < |keys| => m[keys[i]])
  }

  lemma {:induction false} ValuesAt(m: NodeMap, keys: seq<string>, id: string)
    requires Keyed(m) && NoRepeats(keys) && forall id :: id in keys ==> id in m
    ensures Get(Applied(map[], Puts(Values(m, keys))), id) == if id in keys then Get(m, id) else None
  {
    if keys != [] {
      var init, last := keys[..|keys| - 1], keys[|keys| - 1];
      assert keys == init + [last];
      ValuesAt(m, init, id);
      assert Puts(Values(m, keys)) == Puts(Values(m, init)) + [Put(m[last])];
      LogStep(map[], Puts(Values(m, init)), Put(m[last]));
    }
  }

  lemma ValuesDistinct(m: NodeMap, keys: seq<string>)
    requires Keyed(m) && NoRepeats(keys) && forall id :: id in keys ==> id in m
    ensures forall i, j :: 0 <= i < j < |keys| ==> Values(m, keys)[i].id != Values(m, keys)[j].id
  {
    forall i, j | 0 <= i < j < |keys| ensures Values(m, keys)[i].id != Values(m, keys)[j].id {
      assert keys[i] in keys && keys[j] in keys;
    }
  }

  // Each changed node under its id, and each deleted id gone.
  lemma ChangedAt(m: NodeMap, updates: NodeMap, keys: seq<string>, deleted: seq<string>, now: nat, id: string)
    requires Keyed(updates) && Enumerates(keys, updates.Keys)
    ensures Get(Changed(m, Values(updates, keys), deleted, now), id) ==
            if id in deleted then None else if id in updates then Some(Replaced(updates[id], now)) else Get(m, id)
  {
    hide Replaced;
    var ws := Replacements(Values(updates, keys), now);
    var mid := Applied(m, ws);
    DropsAt(mid, deleted, id);
    if id in updates {
      var i :| 0 <= i < |keys| && keys[i] == id;
      ValuesDistinct(updates, keys);
      assert ws[i] == Put(Replaced(updates[id], now));
      assert forall j :: 0 <= j < |ws| ==> ws[j].Key() == Values(updates, keys)[j].id;
      AppliedAt(m, ws, i);
    } else {
      forall w {:trigger w in ws} | w in ws ensures w.Key() != id {
        var i :| 0 <= i < |ws| && ws[i] == w;
        assert keys[i] in keys && updates[keys[i]].id == keys[i];
      }
      AppliedOther(m, ws, id);
    }
  }

  // ---- one key of a list of writes ----

  lemma UpsertedOther(m: NodeMap, list: seq<ManagedNode>, now: nat, id: string)
    requires forall i :: 0 <= i < |list| ==> list[i].id != id
    ensures Get(Applied(m, Upserts(m, list, now)), id) == Get(m, id)
  {
    hide Merged;
    var ws := Upserts(m, list, now);
    forall w {:trigger w in ws} | w in ws ensures w.Key() != id {
      var i :| 0 <= i < |ws| && ws[i] == w;
      UpsertAt(m, list, now, i);
      MergedId(Applied(m, Upserts(m, list[..i], now)), list[i], now);
    }
    AppliedOther(m, ws, id);
  }

  lemma MergedId(m: NodeMap, node: ManagedNode, now: nat)
    ensures Merged(m, node, now).id == node.id
  {
  }

  // The last write of a key decides.
  lemma {:induction false} AppliedAt(m: NodeMap, ws: seq<Write>, i: nat)
    requires i < |ws| && ws[i].Put? && forall j :: i < j < |ws| ==> ws[j].Key() != ws[i].Key()
    ensures Get(Applied(m, ws), ws[i].node.id) == Some(ws[i].node)
  {
    if i < |ws| - 1 {
      AppliedAt(m, ws[..|ws| - 1], i);
    }
  }

  lemma {:induction false} DropsAt(m: NodeMap, ids: seq<string>, id: string)
    ensures Get(Applied(m, Drops(ids)), id) == if id in ids then None else Get(m, id)
  {
    if ids != [] {
      var init, last := ids[..|ids| - 1], ids[|ids| - 1];
      assert ids == init + [last];
      DropsAt(m, init, id);
      DropsAdd(m, init, last);
    }
  }
}

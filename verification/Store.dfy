/**
  The node store: a map in memory and the table behind it.  Each mutator changes the map, runs one
  transaction, and undoes the map from its record when the transaction fails.
 */
module Store {
  import opened SourceRefs
  import opened Nodes
  import opened Options
  import opened Orders
  import opened StoreModel
  import opened StoreWrites
  import opened StorePool
  import opened StoreUndo
  import opened StoreResults

  // The counting part of a transaction: rows are written by node id, then deleted.
  method Transact(table: NodeMap, nodes: seq<ManagedNode>, deleted: seq<string>) returns (draft: NodeMap)
    ensures draft == Applied(Applied(table, Puts(nodes)), Drops(deleted))
  {
    hide *;
    draft := table;
    PutsNone(table);
    for i := 0 to |nodes|
      invariant draft == Applied(table, Puts(nodes[..i]))
    {
      assert nodes[..i + 1] == nodes[..i] + [nodes[i]];
      PutsAdd(table, nodes[..i], nodes[i]);
      draft := draft[nodes[i].id := nodes[i]];
    }
    assert nodes[..|nodes|] == nodes;
    ghost var mid := draft;
    DropsNone(mid);
    for i := 0 to |deleted|
      invariant draft == Applied(mid, Drops(deleted[..i]))
    {
      assert deleted[..i + 1] == deleted[..i] + [deleted[i]];
      DropsAdd(mid, deleted[..i], deleted[i]);
      draft := draft - {deleted[i]};
    }
    assert deleted[..|deleted|] == deleted;
  }

  method Stamp(given: ManagedNode, now: nat) returns (node: ManagedNode)
    ensures node == Stamped(given, now)
  {
    node := given;
    if node.createdAt == 0 {
      node := node.(createdAt := now);
    }
    node := node.(updatedAt := now);
  }

  method MergeInto(m: NodeMap, given: ManagedNode, now: nat) returns (node: ManagedNode)
    ensures node == Merged(m, given, now)
  {
    hide Dedup, NodeRefs, Stamped;
    var refs := NodeSourceRefs(given);
    if given.id in m {
      var stored := NodeSourceRefs(m[given.id]);
      refs := DeduplicateSourceRefs(stored + refs);
    }
    node := Stamp(given.(sourceRefs := refs), now);
  }

  method Replace(given: ManagedNode, now: nat) returns (node: ManagedNode)
    ensures node == Replaced(given, now)
  {
    hide Dedup, NodeRefs, Stamped;
    var refs := DeduplicateSourceRefs(given.sourceRefs);
    if refs == [] {
      refs := NodeSourceRefs(given.(sourceRefs := []));
    }
    node := Stamp(given.(sourceRefs := refs), now);
  }

  // `top` is the highest order given out so far.
  method MarkNode(given: ManagedNode, port: nat, top: int, now: nat) returns (node: ManagedNode, top': int)
    ensures node == Mark(given, port, top + 1, now) && top' == top + if Listed(given) then 0 else 1
  {
    var wasInPool := Listed(given);
    top' := top;
    node := given.(state := NodeState.InPool, inPool := true, enabled := true, port := port);
    if !wasInPool {
      top' := top' + 1;
      node := node.(order := top');
    }
    node := node.(updatedAt := now);
  }

  method Recover(node: ManagedNode) returns (state: NodeState)
    ensures state == StateBeforeTest(node)
  {
    if node.inPool {
      state := NodeState.InPool;
    } else if !node.enabled {
      state := Excluded;
    } else if node.lastTestAt == 0 {
      state := Parsed;
    } else if node.lastError != "" {
      state := Failed;
    } else {
      state := Passed;
    }
  }

  class Store {
    var nodes: NodeMap
    var table: NodeMap

    constructor (rows: NodeMap)
      ensures nodes == rows && table == rows
    {
      nodes, table := rows, rows;
    }

    // One transaction: all of its rows or none.
    method Persist(changed: seq<ManagedNode>, deleted: seq<string>, commits: bool) returns (ok: bool)
      modifies this`table
      ensures ok == commits
      ensures table == if ok then Applied(Applied(old(table), Puts(changed)), Drops(deleted)) else old(table)
    {
      var draft := Transact(table, changed, deleted);
      if commits {
        table := draft;
      }
      ok := commits;
    }

    method Undo(previous: UndoLog)
      modifies this`nodes
      ensures nodes == Undone(old(nodes), previous)
    {
      var todo := previous.Keys;
      while todo != {}
        invariant todo <= previous.Keys
        invariant forall id :: Get(nodes, id) == if id in previous && id !in todo then previous[id] else Get(old(nodes), id)
        decreases |todo|
      {
        var id :| id in todo;
        match previous[id] {
          case Some(node) => nodes := nodes[id := node];
          case None => nodes := nodes - {id};
        }
        todo := todo - {id};
      }
      forall id ensures Get(nodes, id) == Get(Undone(old(nodes), previous), id) { UndoneAt(old(nodes), previous, id); }
      SameMaps(nodes, Undone(old(nodes), previous));
    }

    method UpsertNodes(list: seq<ManagedNode>, now: nat, commits: bool) returns (ok: bool)
      modifies this
      ensures ok == commits
      ensures var ws := Upserts(old(nodes), list, now);
              && table == (if ok then Applied(old(table), ws) else old(table))
              && nodes == (if ok then Applied(old(nodes), ws) else Undone(Applied(old(nodes), ws), Log(old(nodes), ws)))
      ensures ok ==> Upserted(old(nodes), list, now, nodes)
      ensures old(Mirrored(nodes, table)) && (ok || DistinctIds(list)) ==> Mirrored(nodes, table)
    {
      hide *;
      UpsertsUpserted(nodes, list, now);
      if Mirrored(nodes, table) {
        MirroredIs(nodes, table);
        UpsertMirrors(nodes, list, now);
      }
      ghost var was := nodes;
      var previous: UndoLog := map[];
      var written: seq<ManagedNode> := [];
      PutsNone(was);
      UpsertsNone(was, now);
      for i := 0 to |list|
        invariant table == old(table)
        invariant Puts(written) == Upserts(was, list[..i], now)
        invariant nodes == Applied(was, Puts(written)) && previous == Log(was, Puts(written))
      {
        var node := list[i];
        GetAt(nodes, node.id);
        previous := previous[node.id := if node.id in nodes then Some(nodes[node.id]) else None];
        node := MergeInto(nodes, node, now);
        nodes := nodes[node.id := node];
        UpsertsAdd(was, list, now, i);
        PutsAdd(was, written, node);
        written := written + [node];
      }
      assert list[..|list|] == list;
      ok := Persist(written, [], commits);
      DropsNone(Applied(old(table), Puts(written)));
      if !ok {
        Undo(previous);
      }
      MirroredIs(nodes, table);
    }

    method ApplyNodeChanges(list: seq<ManagedNode>, deleted: seq<string>, now: nat, commits: bool) returns (ok: bool)
      modifies this
      ensures ok == commits
      ensures table == if ok then Changed(old(table), list, deleted, now) else old(table)
      ensures nodes == if ok then Changed(old(nodes), list, deleted, now)
                       else Undone(Changed(old(nodes), list, deleted, now),
                                   ChangeLog(old(nodes), Replacements(list, now), deleted))
      ensures ok ==> Replacing(old(nodes), list, deleted, now, nodes)
      ensures old(Mirrored(nodes, table)) && (ok || DistinctIds(list)) ==> Mirrored(nodes, table)
    {
      hide *;
      ChangedReplaces(nodes, list, deleted, now);
      if Mirrored(nodes, table) {
        MirroredIs(nodes, table);
        ChangesMirror(nodes, list, deleted, now);
      }
      ghost var was := nodes;
      var previous: UndoLog := map[];
      var written: seq<ManagedNode> := [];
      PutsNone(was);
      ReplacementsNone(now);
      for i := 0 to |list|
        invariant table == old(table)
        invariant Puts(written) == Replacements(list[..i], now)
        invariant nodes == Applied(was, Puts(written)) && previous == Log(was, Puts(written))
      {
        var node := list[i];
        GetAt(nodes, node.id);
        previous := previous[node.id := if node.id in nodes then Some(nodes[node.id]) else None];
        node := Replace(node, now);
        nodes := nodes[node.id := node];
        ReplacementsAdd(list, now, i);
        PutsAdd(was, written, node);
        written := written + [node];
      }
      assert list[..|list|] == list;
      ghost var puts, mid := Puts(written), nodes;
      DropsNone(mid);
      ChangeLogNone(was, puts);
      for i := 0 to |deleted|
        invariant table == old(table)
        invariant nodes == Applied(mid, Drops(deleted[..i]))
        invariant previous == ChangeLog(was, puts, deleted[..i])
      {
        DropStep(was, puts, deleted, i);
        GetAt(nodes, deleted[i]);
        if deleted[i] !in previous {
          previous := previous[deleted[i] := if deleted[i] in nodes then Some(nodes[deleted[i]]) else None];
        }
        nodes := nodes - {deleted[i]};
      }
      assert deleted[..|deleted|] == deleted;
      ok := Persist(written, deleted, commits);
      ChangedIs(was, list, deleted, now);
      ChangedIs(old(table), list, deleted, now);
      if !ok {
        Undo(previous);
      }
      MirroredIs(nodes, table);
    }

    method DeleteNodes(ids: seq<string>, commits: bool) returns (ok: bool)
      modifies this
      ensures ok == commits
      ensures table == if ok then Applied(old(table), Drops(ids)) else old(table)
      ensures nodes == if ok then Applied(old(nodes), Drops(ids))
                       else Undone(Applied(old(nodes), Drops(ids)), Log(old(nodes), Drops(ids)))
      ensures old(Mirrored(nodes, table)) ==> (Mirrored(nodes, table) <==> ok || NotTwice(old(nodes), ids))
    {
      hide *;
      if Mirrored(nodes, table) {
        MirroredIs(nodes, table);
        DeleteMirrors(nodes, ids);
      }
      DropsNone(nodes);
      ghost var was := nodes;
      var previous: UndoLog := map[];
      for i := 0 to |ids|
        invariant table == old(table)
        invariant nodes == Applied(was, Drops(ids[..i])) && previous == Log(was, Drops(ids[..i]))
      {
        assert ids[..i + 1] == ids[..i] + [ids[i]];
        GetAt(nodes, ids[i]);
        DropsAdd(was, ids[..i], ids[i]);
        previous := previous[ids[i] := if ids[i] in nodes then Some(nodes[ids[i]]) else None];
        nodes := nodes - {ids[i]};
      }
      assert ids[..|ids|] == ids;
      PutsNone(table);
      ok := Persist([], ids, commits);
      if !ok {
        Undo(previous);
      }
      MirroredIs(nodes, table);
    }

    method SetOrder(ids: seq<string>, clock: nat -> nat, commits: bool) returns (ok: bool)
      requires Keyed(nodes)
      modifies this
      ensures ok == commits
      ensures var ws := Reorders(old(nodes), ids, clock);
              && table == (if ok then Applied(old(table), ws) else old(table))
              && nodes == (if ok then Applied(old(nodes), ws) else Undone(Applied(old(nodes), ws), Log(old(nodes), ws)))
      ensures ok ==> Reordered(old(nodes), ids, clock, nodes)
      ensures old(Mirrored(nodes, table)) && (ok || NotTwice(old(nodes), ids)) ==> Mirrored(nodes, table)
    {
      hide *;
      ReordersReordered(nodes, ids, clock);
      ReorderMirrors(nodes, ids, clock);
      MirroredIs(nodes, table);
      PutsNone(nodes);
      ReordersNone(nodes, clock);
      ghost var was := nodes;
      var previous: UndoLog := map[];
      var updated: seq<ManagedNode> := [];
      for i := 0 to |ids|
        invariant table == old(table)
        invariant Puts(updated) == Reorders(was, ids[..i], clock)
        invariant nodes == Applied(was, Puts(updated)) && previous == Log(was, Puts(updated))
      {
        var id := ids[i];
        ReordersAdd(was, ids, clock, i);
        GetAt(nodes, id);
        if id in nodes {
          var node := nodes[id];
          previous := previous[id := Some(node)];
          node := node.(order := i);
          node := node.(updatedAt := clock(i));
          nodes := nodes[id := node];
          PutsAdd(was, updated, node);
          updated := updated + [node];
        }
      }
      assert ids[..|ids|] == ids;
      ok := Persist(updated, [], commits);
      DropsNone(Applied(old(table), Puts(updated)));
      if !ok {
        Undo(previous);
      }
      MirroredIs(nodes, table);
    }

    // The end of a rewriting mutator: nothing to write, or one transaction.
    method Save(ghost was: NodeMap, ghost changes: NodeMap, updated: seq<ManagedNode>, previous: UndoLog, commits: bool) returns (ok: bool)
      requires Recorded(was, nodes, changes, updated, previous) && changes.Keys <= was.Keys
      modifies this
      ensures ok == (commits || changes == map[])
      ensures nodes == if ok then was + changes else was
      ensures table == if ok then old(table) + changes else old(table)
      ensures |updated| == |changes|
    {
      hide Recorded, Applied, Undone;
      RecordedDone(was, nodes, changes, updated, previous);
      PutsMerge(table, updated);
      if updated == [] {
        return true;
      }
      ok := Persist(updated, [], commits);
      if !ok {
        Undo(previous);
      }
    }

    method RestateInMemory(states: map<string, NodeState>, current: NodeState, now: nat) returns (updated: seq<ManagedNode>, previous: UndoLog)
      requires Keyed(nodes)
      modifies this`nodes
      ensures Recorded(old(nodes), nodes, Restated(old(nodes), states, current, now), updated, previous)
    {
      hide *;
      ghost var was := nodes;
      ghost var changes := Restated(was, states, current, now);
      previous := map[];
      updated := [];
      var todo := states.Keys;
      RestatedKeys(was, states, current, now);
      RecordedStarts(was);
      AllTodo(changes, todo);
      while todo != {}
        invariant todo <= states.Keys
        invariant Recorded(was, nodes, changes - todo, updated, previous)
        decreases |todo|
      {
        var id :| id in todo;
        RestatedStep(was, nodes, states, current, now, todo, updated, previous, id);
        if id in nodes && nodes[id].state == current {
          var node := nodes[id];
          previous := previous[id := Some(node)];
          node := node.(state := states[id], updatedAt := now);
          nodes := nodes[id := node];
          updated := updated + [node];
        }
        todo := todo - {id};
      }
    }

    // Puts back the state of every listed node that still is in state `current`.
    method RestoreNodeStatesIfCurrent(states: map<string, NodeState>, current: NodeState, now: nat, commits: bool) returns (ok: bool)
      requires Keyed(nodes)
      modifies this
      ensures ok == (commits || Restated(old(nodes), states, current, now) == map[])
      ensures nodes == if ok then old(nodes) + Restated(old(nodes), states, current, now) else old(nodes)
      ensures table == if ok then old(table) + Restated(old(nodes), states, current, now) else old(table)
      ensures ok ==> PutBack(old(nodes), states, current, now, nodes)
      ensures old(Mirrored(nodes, table)) ==> Mirrored(nodes, table)
    {
      hide *;
      RestatedPutsBack(nodes, states, current, now);
      RestatedKeyed(nodes, states, current, now);
      if Mirrored(nodes, table) {
        RewriteMirrors(nodes, table, Restated(nodes, states, current, now));
      }
      RestatedKeys(nodes, states, current, now);
      ghost var was := nodes;
      var updated, previous := RestateInMemory(states, current, now);
      ok := Save(was, Restated(was, states, current, now), updated, previous, commits);
    }

    method RecoverInMemory(now: nat) returns (updated: seq<ManagedNode>, previous: UndoLog)
      requires Keyed(nodes)
      modifies this`nodes
      ensures Recorded(old(nodes), nodes, Recovered(old(nodes), now), updated, previous)
    {
      hide Recorded, Recovered;
      ghost var was := nodes;
      ghost var changes := Recovered(was, now);
      previous := map[];
      updated := [];
      var todo := nodes.Keys;
      RecoveredKeys(was, now);
      RecordedStarts(was);
      AllTodo(changes, todo);
      while todo != {}
        invariant todo <= was.Keys
        invariant Recorded(was, nodes, changes - todo, updated, previous)
        decreases |todo|
      {
        var id :| id in todo;
        RecoveredAt(was, now, id);
        RecordedPasses(was, nodes, changes - todo, updated, previous, id);
        if id in changes {
          RecordedAdds(was, nodes, changes - todo, updated, previous, id, changes[id]);
        }
        LessTodo(changes, todo, id);
        if nodes[id].state == Testing {
          var node := nodes[id];
          previous := previous[id := Some(node)];
          var state := Recover(node);
          node := node.(state := state);
          node := node.(updatedAt := now);
          nodes := nodes[id := node];
          updated := updated + [node];
        }
        todo := todo - {id};
      }
    }

    // After a restart no node is left in testing.
    method RecoverStaleTestingNodes(now: nat, commits: bool) returns (recovered: nat, ok: bool)
      requires Keyed(nodes)
      modifies this
      ensures ok == (commits || Recovered(old(nodes), now) == map[])
      ensures recovered == if ok then |Recovered(old(nodes), now)| else 0
      ensures nodes == if ok then old(nodes) + Recovered(old(nodes), now) else old(nodes)
      ensures table == if ok then old(table) + Recovered(old(nodes), now) else old(table)
      ensures ok ==> NoneTesting(old(nodes), now, nodes)
      ensures old(Mirrored(nodes, table)) ==> Mirrored(nodes, table)
    {
      hide *;
      RecoveredNone(nodes, now);
      RecoveredKeyed(nodes, now);
      if Mirrored(nodes, table) {
        RewriteMirrors(nodes, table, Recovered(nodes, now));
      }
      RecoveredKeys(nodes, now);
      ghost var was := nodes;
      var updated, previous := RecoverInMemory(now);
      ok := Save(was, Recovered(was, now), updated, previous, commits);
      recovered := if ok then |updated| else 0;
    }

    method UpdateNodeState(id: string, state: NodeState, lastError: string, testedAt: nat, now: nat, commits: bool)
      returns (result: Option<ManagedNode>)
      requires Keyed(nodes)
      modifies this
      ensures result.Some? <==> id in old(nodes) && commits
      ensures result.None? ==> nodes == old(nodes) && table == old(table)
      ensures result.Some? ==> nodes == old(nodes)[id := result.value] && table == old(table)[id := result.value]
      ensures result.Some? ==>
                result.value == old(nodes)[id].(state := state, lastError := lastError, lastTestAt := testedAt, updatedAt := now)
      ensures old(Mirrored(nodes, table)) ==> Mirrored(nodes, table)
    {
      if id !in nodes {
        return None;
      }
      var node := nodes[id];
      var previous := node;
      node := node.(state := state, lastError := lastError);
      node := node.(lastTestAt := testedAt);
      node := node.(updatedAt := now);
      nodes := nodes[id := node];
      assert Puts([node]) == [] + [Put(node)];
      LogStep(table, [], Put(node));
      var ok := Persist([node], [], commits);
      if !ok {
        nodes := nodes[id := previous];
        assert nodes == old(nodes);
        return None;
      }
      return Some(node);
    }

    method HighestOrder() returns (top: int)
      ensures TopOrder(nodes, top)
    {
      top := -1;
      var todo := nodes.Keys;
      while todo != {}
        invariant todo <= nodes.Keys && -1 <= top
        invariant forall id {:trigger nodes[id]} :: id in nodes && id !in todo && Listed(nodes[id]) ==> nodes[id].order <= top
        invariant top == -1 || exists id :: id in nodes && Listed(nodes[id]) && nodes[id].order == top
        decreases |todo|
      {
        var id :| id in todo;
        if Listed(nodes[id]) && nodes[id].order > top {
          top := nodes[id].order;
        }
        todo := todo - {id};
      }
    }

    method MarkInMemory(ports: map<string, nat>, ids: seq<string>, top: int, now: nat) returns (updated: seq<ManagedNode>, previous: UndoLog)
      requires Keyed(nodes) && Enumerates(ids, ports.Keys)
      modifies this`nodes
      ensures Recorded(old(nodes), nodes, Marked(old(nodes), ports, ids, top, now), updated, previous)
    {
      hide *;
      ghost var was := nodes;
      previous := map[];
      updated := [];
      MarkedNone(was, ports, top, now);
      var maxOrder := top;
      RecordedStarts(was);
      for i := 0 to |ids|
        invariant Recorded(was, nodes, Marked(was, ports, ids[..i], top, now), updated, previous)
        invariant maxOrder == top + Joined(was, ids[..i])
      {
        MarkingStep(was, nodes, ports, ids, top, now, i, updated, previous);
        if ids[i] in nodes {
          var node := nodes[ids[i]];
          previous := previous[ids[i] := Some(node)];
          node, maxOrder := MarkNode(node, ports[ids[i]], maxOrder, now);
          nodes := nodes[ids[i] := node];
          updated := updated + [node];
        }
      }
      assert ids[..|ids|] == ids;
    }

    // `ids` is the order in which the ports map is gone through.
    method MarkInPoolMany(ports: map<string, nat>, ids: seq<string>, now: nat, commits: bool) returns (marked: seq<ManagedNode>, ok: bool, ghost top: int)
      requires Keyed(nodes) && Enumerates(ids, ports.Keys)
      modifies this
      ensures TopOrder(old(nodes), top)
      ensures ok == (commits || Marked(old(nodes), ports, ids, top, now) == map[])
      ensures Applied(map[], Puts(marked)) == if ok then Marked(old(nodes), ports, ids, top, now) else map[]
      ensures |marked| == if ok then |Marked(old(nodes), ports, ids, top, now)| else 0
      ensures nodes == old(nodes) + Applied(map[], Puts(marked))
      ensures table == old(table) + Applied(map[], Puts(marked))
      ensures OrdersDistinct(old(nodes)) ==> OrdersDistinct(nodes)
      ensures old(Mirrored(nodes, table)) ==> Mirrored(nodes, table)
    {
      hide *;
      ghost var was := nodes;
      var highest := HighestOrder();
      top := highest;
      ghost var changes := Marked(was, ports, ids, top, now);
      var updated, previous := MarkInMemory(ports, ids, highest, now);
      RecordedDone(was, nodes, changes, updated, previous);
      ok := Save(was, changes, updated, previous, commits);
      marked := if ok then updated else [];
      if OrdersDistinct(was) {
        MarkKeepsDistinct(was, ports, ids, top, now);
      }
      NothingPut(was);
      NothingPut(table);
      PutKeyed(marked);
      if old(Mirrored(nodes, table)) {
        RewriteMirrors(was, old(table), Applied(map[], Puts(marked)));
      }
    }

    // `keys` is the order in which the snapshot's map is gone through.
    method RestoreNodesSnapshot(version: nat, snapshot: NodeMap, keys: seq<string>, commits: bool) returns (ok: bool)
      requires Enumerates(keys, snapshot.Keys)
      modifies this
      ensures ok == (version == StoreVersion && commits)
      ensures !ok ==> nodes == old(nodes) && table == old(table)
      ensures ok ==> nodes == snapshot && table == Applied(map[], Puts(Values(snapshot, keys)))
      ensures ok ==> (table == nodes <==> Keyed(snapshot))
    {
      if version != StoreVersion {
        return false;
      }
      SnapshotMirrors(snapshot, keys);
      var previous := nodes;
      nodes := snapshot;
      var draft := Transact(map[], Values(snapshot, keys), []);
      assert Drops([]) == [];
      if !commits {
        nodes := previous;
        return false;
      }
      table := draft;
      return true;
    }
  }

  lemma NothingPut(m: NodeMap)
    ensures Applied(map[], Puts([])) == map[] && m + map[] == m
  {
  }

  const StoreVersion: nat := 1

  // A restored snapshot and the table agree exactly when every node sits under its own id.
  lemma SnapshotMirrors(m: NodeMap, keys: seq<string>)
    requires Enumerates(keys, m.Keys)
    ensures Applied(map[], Puts(Values(m, keys))) == m <==> Keyed(m)
  {
    var rows := Applied(map[], Puts(Values(m, keys)));
    AppliedKeyed(map[], Puts(Values(m, keys)));
    if Keyed(m) {
      forall id ensures Get(rows, id) == Get(m, id) { ValuesAt(m, keys, id); }
      SameMaps(rows, m);
    }
  }
}

/**
  Marking nodes as pool members: which order each one gets.
 */
module StorePool {
  import opened Nodes
  import opened Options
  import opened Orders
  import opened StoreModel
  import opened StoreWrites

  // A member by both marks, as the pool list shows it.
  predicate Listed(node: ManagedNode) {
    node.inPool && node.state == NodeState.InPool
  }

  ghost predicate TopOrder(m: NodeMap, top: int) {
    && -1 <= top
    && (forall id {:trigger m[id]} :: id in m && Listed(m[id]) ==> m[id].order <= top)
    && (top == -1 || exists id :: id in m && Listed(m[id]) && m[id].order == top)
  }

  // How many of the listed ids join the pool anew.
  function Joined(m: NodeMap, ids: seq<string>): nat {
    if ids == [] then 0
    else
      var id := ids[|ids| - 1];
      Joined(m, ids[..|ids| - 1]) + if id in m && !Listed(m[id]) then 1 else 0
  }

  function Mark(node: ManagedNode, port: nat, next: int, now: nat): ManagedNode {
    node.(state := NodeState.InPool, inPool := true, enabled := true, port := port,
          order := if Listed(node) then node.order else next, updatedAt := now)
  }

  // What marking the ids, in this order, changes.
  function Marked(m: NodeMap, ports: map<string, nat>, ids: seq<string>, top: int, now: nat): (r: NodeMap)
    ensures r.Keys <= m.Keys
  {
    if ids == [] then map[]
    else
      var init, id := ids[..|ids| - 1], ids[|ids| - 1];
      var rest := Marked(m, ports, init, top, now);
      if id in m && id in ports then rest[id := Mark(m[id], ports[id], top + 1 + Joined(m, init), now)] else rest
  }

  lemma {:induction false} MarkedAt(m: NodeMap, ports: map<string, nat>, ids: seq<string>, top: int, now: nat, i: nat)
    requires NoRepeats(ids) && i < |ids| && ids[i] in m && ids[i] in ports
    ensures ids[i] in Marked(m, ports, ids, top, now)
    ensures Marked(m, ports, ids, top, now)[ids[i]] == Mark(m[ids[i]], ports[ids[i]], top + 1 + Joined(m, ids[..i]), now)
  {
    var init := ids[..|ids| - 1];
    if i < |init| {
      MarkedAt(m, ports, init, top, now, i);
      assert init[..i] == ids[..i];
    }
  }

  lemma {:induction false} MarkedKeys(m: NodeMap, ports: map<string, nat>, ids: seq<string>, top: int, now: nat, id: string)
    ensures id in Marked(m, ports, ids, top, now) <==> id in m && id in ports && id in ids
  {
    if ids != [] {
      var init := ids[..|ids| - 1];
      MarkedKeys(m, ports, init, top, now, id);
      assert ids == init + [ids[|ids| - 1]];
    }
  }

  lemma {:induction false} JoinedGrows(m: NodeMap, ids: seq<string>, i: nat, j: nat)
    requires i < j <= |ids| && ids[i] in m && !Listed(m[ids[i]])
    ensures Joined(m, ids[..i]) < Joined(m, ids[..j])
  {
    assert ids[..j][..j - 1] == ids[..j - 1];
    if i < j - 1 {
      JoinedGrows(m, ids, i, j - 1);
    }
  }

  lemma MarkedNone(m: NodeMap, ports: map<string, nat>, top: int, now: nat)
    ensures Marked(m, ports, [], top, now) == map[] && Joined(m, []) == 0
  {
  }

  lemma MarkedStep(m: NodeMap, ports: map<string, nat>, ids: seq<string>, top: int, now: nat, i: nat)
    requires NoRepeats(ids) && i < |ids| && ids[i] in ports
    ensures ids[i] !in Marked(m, ports, ids[..i], top, now)
    ensures Marked(m, ports, ids[..i + 1], top, now) ==
            if ids[i] in m then Marked(m, ports, ids[..i], top, now)[ids[i] := Mark(m[ids[i]], ports[ids[i]], top + 1 + Joined(m, ids[..i]), now)]
            else Marked(m, ports, ids[..i], top, now)
    ensures Joined(m, ids[..i + 1]) == Joined(m, ids[..i]) + if ids[i] in m && !Listed(m[ids[i]]) then 1 else 0
  {
    MarkedKeys(m, ports, ids[..i], top, now, ids[i]);
    assert ids[i] !in ids[..i];
    assert ids[..i + 1][..i] == ids[..i];
  }

  // One turn of the loop that marks the ids.
  lemma MarkingStep(was: NodeMap, nodes: NodeMap, ports: map<string, nat>, ids: seq<string>, top: int, now: nat, i: nat,
                    updated: seq<ManagedNode>, previous: UndoLog)
    requires Keyed(was) && Enumerates(ids, ports.Keys) && i < |ids|
    requires Recorded(was, nodes, Marked(was, ports, ids[..i], top, now), updated, previous)
    ensures ids[i] in ports
    ensures var done, max := Marked(was, ports, ids[..i + 1], top, now), top + Joined(was, ids[..i]);
            if ids[i] in nodes then
              var node := Mark(nodes[ids[i]], ports[ids[i]], max + 1, now);
              && Recorded(was, nodes[ids[i] := node], done, updated + [node], previous[ids[i] := Some(nodes[ids[i]])])
              && top + Joined(was, ids[..i + 1]) == max + if Listed(nodes[ids[i]]) then 0 else 1
            else Recorded(was, nodes, done, updated, previous) && top + Joined(was, ids[..i + 1]) == max
  {
    hide Recorded, Marked, Joined;
    var done, max := Marked(was, ports, ids[..i], top, now), top + Joined(was, ids[..i]);
    assert ids[i] in ids;
    MarkedStep(was, ports, ids, top, now, i);
    RecordedPasses(was, nodes, done, updated, previous, ids[i]);
    assert Get(nodes, ids[i]) == Get(was, ids[i]);
    if ids[i] in nodes {
      RecordedAdds(was, nodes, done, updated, previous, ids[i], Mark(was[ids[i]], ports[ids[i]], max + 1, now));
    }
  }

  ghost predicate OrdersDistinct(m: NodeMap) {
    forall a, b {:trigger m[a], m[b]} :: a in m && b in m && a != b && Listed(m[a]) && Listed(m[b]) ==> m[a].order != m[b].order
  }

  // One node after marking.
  lemma MarkedNode(m: NodeMap, ports: map<string, nat>, ids: seq<string>, top: int, now: nat, id: string)
    requires Enumerates(ids, ports.Keys) && id in m
    ensures var m' := m + Marked(m, ports, ids, top, now);
            && id in m'
            && (id !in ports ==> m'[id] == m[id])
            && (id in ports ==> Listed(m'[id]) && m'[id].enabled && m'[id].port == ports[id])
            && (Listed(m[id]) ==> Listed(m'[id]) && m'[id].order == m[id].order)
            && (Listed(m'[id]) && !Listed(m[id]) ==>
                  id in ids && exists i :: 0 <= i < |ids| && ids[i] == id && m'[id].order == top + 1 + Joined(m, ids[..i]))
  {
    MarkedKeys(m, ports, ids, top, now, id);
    if id in ports {
      var i :| 0 <= i < |ids| && ids[i] == id;
      MarkedAt(m, ports, ids, top, now, i);
    }
  }

  // New members come after every existing one, and members that had distinct orders still do.
  lemma MarkKeepsOrders(m: NodeMap, ports: map<string, nat>, ids: seq<string>, top: int, now: nat, a: string, b: string)
    requires Enumerates(ids, ports.Keys) && TopOrder(m, top) && a in m && b in m && a != b
    ensures var m' := m + Marked(m, ports, ids, top, now);
            && m'.Keys == m.Keys
            && (Listed(m[a]) && !Listed(m[b]) && Listed(m'[b]) ==> m'[a].order < m'[b].order)
            && (!Listed(m[a]) && !Listed(m[b]) && Listed(m'[a]) && Listed(m'[b]) ==> m'[a].order != m'[b].order)
  {
    hide Marked, Enumerates;
    var m' := m + Marked(m, ports, ids, top, now);
    MarkedNode(m, ports, ids, top, now, a);
    MarkedNode(m, ports, ids, top, now, b);
    if !Listed(m[a]) && !Listed(m[b]) && Listed(m'[a]) && Listed(m'[b]) {
      var i :| 0 <= i < |ids| && ids[i] == a && m'[a].order == top + 1 + Joined(m, ids[..i]);
      var j :| 0 <= j < |ids| && ids[j] == b && m'[b].order == top + 1 + Joined(m, ids[..j]);
      if i < j { JoinedGrows(m, ids, i, j); } else { JoinedGrows(m, ids, j, i); }
    }
  }

  lemma MarkKeepsDistinct(m: NodeMap, ports: map<string, nat>, ids: seq<string>, top: int, now: nat)
    requires Enumerates(ids, ports.Keys) && TopOrder(m, top) && OrdersDistinct(m)
    ensures OrdersDistinct(m + Marked(m, ports, ids, top, now))
  {
    var m' := m + Marked(m, ports, ids, top, now);
    forall a, b {:trigger m'[a], m'[b]} | a in m' && b in m' && a != b && Listed(m'[a]) && Listed(m'[b]) ensures m'[a].order != m'[b].order {
      MarkedNode(m, ports, ids, top, now, a);
      MarkedNode(m, ports, ids, top, now, b);
      MarkKeepsOrders(m, ports, ids, top, now, a, b);
      MarkKeepsOrders(m, ports, ids, top, now, b, a);
    }
  }
}

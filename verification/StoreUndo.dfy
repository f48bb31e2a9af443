/**
  When a failed transaction leaves the store's memory as it was: exactly when no id is recorded
  twice.
 */
module StoreUndo {
  import opened Nodes
  import opened StoreModel
  import opened StoreWrites

  ghost predicate Undoes(m: NodeMap, ws: seq<Write>) {
    Undone(Applied(m, ws), Log(m, ws)) == m
  }

  // Every write is visible on the node it hits: it sets an update time the stored node does not have.
  ghost predicate Touches(m: NodeMap, ws: seq<Write>) {
    forall w {:trigger w in ws} :: w in ws ==> w.Put? && (w.node.id in m ==> w.node.updatedAt != m[w.node.id].updatedAt)
  }

  ghost function LastOf(ws: seq<Write>, id: string): (i: nat)
    requires id in Keys(ws)
    ensures i < |ws| && ws[i].Key() == id && forall j :: i < j < |ws| ==> ws[j].Key() != id
  {
    var init, last := ws[..|ws| - 1], ws[|ws| - 1];
    if last.Key() == id then |ws| - 1
    else
      assert ws == init + [last];
      LastOf(init, id)
  }

  lemma {:induction false} PutsLeave(m: NodeMap, ws: seq<Write>, id: string)
    requires Touches(m, ws) && id in Keys(ws)
    ensures id in Applied(m, ws) && Put(Applied(m, ws)[id]) in ws && Applied(m, ws)[id].id == id
  {
    var init, last := ws[..|ws| - 1], ws[|ws| - 1];
    assert ws == init + [last] && last in ws;
    if last.Key() != id {
      assert forall w :: w in init ==> w in ws;
      assert id in Keys(init);
      PutsLeave(m, init, id);
    }
  }

  lemma PutsUndone(m: NodeMap, ws: seq<Write>)
    requires Touches(m, ws)
    ensures Undoes(m, ws) <==> DistinctKeys(ws)
  {
    if DistinctKeys(ws) {
      UndoExact(m, ws);
    } else {
      var i, k :| 0 <= i < k < |ws| && ws[i].Key() == ws[k].Key();
      var id := ws[k].Key();
      assert ws[k] in ws;
      var j := LastOf(ws, id);
      LogAt(m, ws, j);
      assert forall w :: w in ws[..j] ==> w in ws;
      assert ws[i] == ws[..j][i] && ws[i] in ws[..j];
      PutsLeave(m, ws[..j], id);
      UndoneAt(Applied(m, ws), Log(m, ws), id);
    }
  }

  ghost predicate DistinctIds(list: seq<ManagedNode>) {
    forall i, j :: 0 <= i < j < |list| ==> list[i].id != list[j].id
  }

  ghost predicate FreshTime(m: NodeMap, now: nat) {
    forall id {:trigger m[id]} :: id in m ==> m[id].updatedAt != now
  }

  // UpsertNodes that fails is exact if and only if no id is listed twice.
  lemma UpsertUndone(m: NodeMap, list: seq<ManagedNode>, now: nat)
    requires FreshTime(m, now)
    ensures Undoes(m, Upserts(m, list, now)) <==> DistinctIds(list)
  {
    hide Merged;
    var ws := Upserts(m, list, now);
    forall i | 0 <= i < |ws| ensures ws[i].Put? && ws[i].node.id == list[i].id && ws[i].node.updatedAt == now { UpsertAt(m, list, now, i); }
    PutsUndone(m, ws);
    assert DistinctKeys(ws) <==> DistinctIds(list);
  }

  // Whatever the clock says, distinct ids are enough.
  lemma UpsertUndoneDistinct(m: NodeMap, list: seq<ManagedNode>, now: nat)
    requires DistinctIds(list)
    ensures Undoes(m, Upserts(m, list, now))
  {
    hide Merged;
    var ws := Upserts(m, list, now);
    forall i | 0 <= i < |ws| ensures ws[i].Put? && ws[i].node.id == list[i].id { UpsertAt(m, list, now, i); }
    UndoExact(m, ws);
  }

  // A node list is written over what it repeats, but deletions may be repeated freely.
  lemma ChangesUndoneAt(m: NodeMap, puts: seq<Write>, deleted: seq<string>, id: string)
    ensures Get(Undone(Applied(Applied(m, puts), Drops(deleted)), ChangeLog(m, puts, deleted)), id)
         == Get(Undone(Applied(m, puts), Log(m, puts)), id)
  {
    var mid := Applied(m, puts);
    UndoneAt(Applied(mid, Drops(deleted)), ChangeLog(m, puts, deleted), id);
    UndoneAt(mid, Log(m, puts), id);
    LogKeys(m, puts);
    if id !in Log(m, puts) {
      UndoneOther(m, puts, id);
      if id !in deleted {
        DropsOther(mid, deleted, id);
      }
    }
  }

  lemma ChangesUndone(m: NodeMap, list: seq<ManagedNode>, deleted: seq<string>, now: nat)
    ensures var undone := Undone(Changed(m, list, deleted, now), ChangeLog(m, Replacements(list, now), deleted));
            && (DistinctIds(list) ==> undone == m)
            && (FreshTime(m, now) && undone == m ==> DistinctIds(list))
  {
    hide Replaced;
    var ws := Replacements(list, now);
    var undone := Undone(Changed(m, list, deleted, now), ChangeLog(m, ws, deleted));
    forall id ensures Get(undone, id) == Get(Undone(Applied(m, ws), Log(m, ws)), id) { ChangesUndoneAt(m, ws, deleted, id); }
    SameMaps(undone, Undone(Applied(m, ws), Log(m, ws)));
    assert DistinctKeys(ws) <==> DistinctIds(list);
    if DistinctIds(list) {
      UndoExact(m, ws);
    } else if FreshTime(m, now) {
      PutsUndone(m, ws);
    }
  }

  // ---- deletions ----

  ghost predicate NotTwice(m: NodeMap, ids: seq<string>) {
    forall i, j :: 0 <= i < j < |ids| && ids[i] in m ==> ids[i] != ids[j]
  }

  // DeleteNodes that fails is exact if and only if no stored id is listed twice.
  lemma DeleteUndone(m: NodeMap, ids: seq<string>)
    ensures Undoes(m, Drops(ids)) <==> NotTwice(m, ids)
  {
    var ws := Drops(ids);
    if Undoes(m, ws) {
      forall i, k | 0 <= i < k < |ids| && ids[i] in m ensures ids[i] != ids[k] {
        if ids[i] == ids[k] {
          DeletedTwice(m, ids, i, k);
        }
      }
    }
    if NotTwice(m, ids) {
      forall id ensures Get(Undone(Applied(m, ws), Log(m, ws)), id) == Get(m, id) { DeletedOnce(m, ids, id); }
      SameMaps(Undone(Applied(m, ws), Log(m, ws)), m);
    }
  }

  lemma DeletedTwice(m: NodeMap, ids: seq<string>, i: nat, k: nat)
    requires i < k < |ids| && ids[i] == ids[k] && ids[i] in m
    ensures !Undoes(m, Drops(ids))
  {
    var ws, id := Drops(ids), ids[i];
    assert ws[k] in ws && ws[k].Key() == id;
    var j := LastOf(ws, id);
    LogAt(m, ws, j);
    assert ws[..j] == Drops(ids[..j]) && ids[..j][i] == id;
    DropsAt(m, ids[..j], id);
    UndoneAt(Applied(m, ws), Log(m, ws), id);
  }

  lemma DeletedOnce(m: NodeMap, ids: seq<string>, id: string)
    requires NotTwice(m, ids)
    ensures Get(Undone(Applied(m, Drops(ids)), Log(m, Drops(ids))), id) == Get(m, id)
  {
    var ws := Drops(ids);
    UndoneAt(Applied(m, ws), Log(m, ws), id);
    LogKeys(m, ws);
    if id in Keys(ws) {
      var j := LastOf(ws, id);
      LogAt(m, ws, j);
      assert ws[..j] == Drops(ids[..j]) && ids[j] == id;
      DropsAt(m, ids[..j], id);
      forall i | 0 <= i < j ensures id in m ==> ids[..j][i] != id { assert ids[i] in m ==> ids[i] != ids[j]; }
    } else {
      UndoneOther(m, ws, id);
    }
  }

  // ---- orders ----

  ghost predicate FreshClock(m: NodeMap, clock: nat -> nat) {
    forall id, i {:trigger m[id], clock(i)} :: id in m ==> m[id].updatedAt != clock(i)
  }

  ghost predicate Reorder(w: Write, id: string, now: nat) {
    w.Put? && w.node.id == id && w.node.updatedAt == now
  }

  lemma ReordersStep(m: NodeMap, ids: seq<string>, clock: nat -> nat)
    requires Keyed(m) && ids != []
    ensures var ws, ws', id := Reorders(m, ids[..|ids| - 1], clock), Reorders(m, ids, clock), ids[|ids| - 1];
            if id in m then |ws'| == |ws| + 1 && ws' == ws + [ws'[|ws|]] && Reorder(ws'[|ws|], id, clock(|ids| - 1)) else ws' == ws
  {
    var ws := Reorders(m, ids[..|ids| - 1], clock);
    AppliedKeyed(m, ws);
    AppliedKeys(m, ws, ids[|ids| - 1]);
  }

  lemma {:induction false} ReordersTouch(m: NodeMap, ids: seq<string>, clock: nat -> nat)
    requires Keyed(m) && FreshClock(m, clock)
    ensures Touches(m, Reorders(m, ids, clock))
  {
    if ids != [] {
      hide Reorders;
      var ws, ws' := Reorders(m, ids[..|ids| - 1], clock), Reorders(m, ids, clock);
      ReordersTouch(m, ids[..|ids| - 1], clock);
      ReordersStep(m, ids, clock);
      forall w {:trigger w in ws'} | w in ws' ensures w.Put? && (w.node.id in m ==> w.node.updatedAt != m[w.node.id].updatedAt) {
        if w !in ws {
          assert ids[|ids| - 1] in m && w == ws'[|ws|];
        }
      }
    }
  }

  lemma {:induction false} ReordersKeys(m: NodeMap, ids: seq<string>, clock: nat -> nat, id: string)
    requires Keyed(m)
    ensures id in Keys(Reorders(m, ids, clock)) <==> id in m && id in ids
  {
    if ids != [] {
      var init, last := ids[..|ids| - 1], ids[|ids| - 1];
      var ws, ws' := Reorders(m, init, clock), Reorders(m, ids, clock);
      ReordersKeys(m, init, clock, id);
      ReordersStep(m, ids, clock);
      assert ids == init + [last];
      if last in m {
        KeysStep(ws, ws'[|ws|]);
      }
    }
  }

  lemma KeysStep(ws: seq<Write>, w: Write)
    ensures Keys(ws + [w]) == Keys(ws) + {w.Key()}
  {
    assert forall v :: v in ws + [w] <==> v in ws || v == w;
  }

  lemma {:induction false} ReordersDistinct(m: NodeMap, ids: seq<string>, clock: nat -> nat)
    requires Keyed(m)
    ensures DistinctKeys(Reorders(m, ids, clock)) <==> NotTwice(m, ids)
  {
    if ids != [] {
      hide Reorders;
      var init, last := ids[..|ids| - 1], ids[|ids| - 1];
      var ws, ws' := Reorders(m, init, clock), Reorders(m, ids, clock);
      ReordersDistinct(m, init, clock);
      ReordersStep(m, ids, clock);
      ReordersKeys(m, init, clock, last);
      if last in m && last in init {
        var k := LastOf(ws, last);
        assert ws'[k].Key() == ws'[|ws|].Key();
        var j :| 0 <= j < |init| && init[j] == last;
        assert ids[j] == ids[|init|];
      } else {
        SplitNotTwice(m, ids);
        if last in m {
          OneMoreKey(ws, ws'[|ws|]);
        }
      }
    }
  }

  lemma OneMoreKey(ws: seq<Write>, w: Write)
    requires w.Key() !in Keys(ws)
    ensures DistinctKeys(ws + [w]) <==> DistinctKeys(ws)
  {
    assert forall k :: 0 <= k < |ws| ==> (ws + [w])[k] == ws[k] && ws[k] in ws && ws[k].Key() in Keys(ws);
  }

  lemma SplitNotTwice(m: NodeMap, ids: seq<string>)
    requires ids != [] && (ids[|ids| - 1] !in m || ids[|ids| - 1] !in ids[..|ids| - 1])
    ensures NotTwice(m, ids) <==> NotTwice(m, ids[..|ids| - 1])
  {
    var init := ids[..|ids| - 1];
    forall i, j | 0 <= i < j < |ids| && ids[i] in m && NotTwice(m, init) ensures ids[i] != ids[j] {
      if j < |init| {
        assert init[i] != init[j];
      } else {
        assert init[i] == ids[i] && ids[i] in init;
      }
    }
    forall i, j | 0 <= i < j < |init| && init[i] in m && NotTwice(m, ids) ensures init[i] != init[j] {
      assert ids[i] != ids[j];
    }
  }

  // SetOrder that fails is exact if and only if no stored id is listed twice.
  lemma ReorderUndone(m: NodeMap, ids: seq<string>, clock: nat -> nat)
    requires Keyed(m) && FreshClock(m, clock)
    ensures Undoes(m, Reorders(m, ids, clock)) <==> NotTwice(m, ids)
  {
    ReordersTouch(m, ids, clock);
    ReordersDistinct(m, ids, clock);
    PutsUndone(m, Reorders(m, ids, clock));
  }

  // ---- memory and table after a mutator ----

  ghost predicate Mirrored(nodes: NodeMap, table: NodeMap) {
    nodes == table && Keyed(nodes)
  }

  lemma MirroredIs(nodes: NodeMap, table: NodeMap)
    ensures Mirrored(nodes, table) <==> nodes == table && Keyed(nodes)
  {
  }

  lemma UpsertMirrors(m: NodeMap, list: seq<ManagedNode>, now: nat)
    requires Keyed(m)
    ensures var ws := Upserts(m, list, now);
            Keyed(Applied(m, ws)) && (DistinctIds(list) ==> Undone(Applied(m, ws), Log(m, ws)) == m)
  {
    AppliedKeyed(m, Upserts(m, list, now));
    if DistinctIds(list) {
      UpsertUndoneDistinct(m, list, now);
    }
  }

  lemma ChangesMirror(m: NodeMap, list: seq<ManagedNode>, deleted: seq<string>, now: nat)
    requires Keyed(m)
    ensures var after := Changed(m, list, deleted, now);
            Keyed(after) && (DistinctIds(list) ==> Undone(after, ChangeLog(m, Replacements(list, now), deleted)) == m)
  {
    AppliedKeyed(m, Replacements(list, now));
    AppliedKeyed(Applied(m, Replacements(list, now)), Drops(deleted));
    ChangesUndone(m, list, deleted, now);
  }

  lemma DeleteMirrors(m: NodeMap, ids: seq<string>)
    requires Keyed(m)
    ensures Keyed(Applied(m, Drops(ids)))
    ensures Undone(Applied(m, Drops(ids)), Log(m, Drops(ids))) == m <==> NotTwice(m, ids)
  {
    AppliedKeyed(m, Drops(ids));
    DeleteUndone(m, ids);
  }

  lemma ReorderMirrors(m: NodeMap, ids: seq<string>, clock: nat -> nat)
    requires Keyed(m)
    ensures var ws := Reorders(m, ids, clock);
            Keyed(Applied(m, ws)) && (NotTwice(m, ids) ==> Undone(Applied(m, ws), Log(m, ws)) == m)
  {
    AppliedKeyed(m, Reorders(m, ids, clock));
    ReordersDistinct(m, ids, clock);
    if NotTwice(m, ids) {
      UndoExact(m, Reorders(m, ids, clock));
    }
  }

  // Rewriting nodes under their own ids.
  lemma RewriteMirrors(nodes: NodeMap, table: NodeMap, done: NodeMap)
    requires Mirrored(nodes, table) && Keyed(done)
    ensures Mirrored(nodes + done, table + done)
  {
  }

  lemma RestatedKeyed(m: NodeMap, states: map<string, NodeState>, current: NodeState, now: nat)
    requires Keyed(m)
    ensures Keyed(Restated(m, states, current, now))
  {
  }

  lemma RecoveredKeyed(m: NodeMap, now: nat)
    requires Keyed(m)
    ensures Keyed(Recovered(m, now))
  {
  }

  lemma PutKeyed(nodes: seq<ManagedNode>)
    ensures Keyed(Applied(map[], Puts(nodes)))
  {
    AppliedKeyed(map[], Puts(nodes));
  }
}

/**
  A change to the store as a sequence of writes, the record a mutator keeps for undoing it, and
  exactly when undoing restores what was there.
 */
module StoreModel {
  import opened Options
  import opened Nodes

  type NodeMap = map<string, ManagedNode>
  type UndoLog = map<string, Option<ManagedNode>>

  datatype Write = Put(node: ManagedNode) | Drop(id: string) {
    function Key(): string {
      match this case Put(n) => n.id case Drop(id) => id
    }
  }

  function Get(m: NodeMap, id: string): Option<ManagedNode> {
    if id in m then Some(m[id]) else None
  }

  function Written(m: NodeMap, w: Write): NodeMap {
    match w case Put(n) => m[n.id := n] case Drop(id) => m - {id}
  }

  function Applied(m: NodeMap, ws: seq<Write>): NodeMap {
    if ws == [] then m else Written(Applied(m, ws[..|ws| - 1]), ws[|ws| - 1])
  }

  // What each written key held before its last write: `previous[id] = s.nodes[id]`, repeated.
  function Log(m: NodeMap, ws: seq<Write>): UndoLog {
    if ws == [] then map[]
    else
      var init, key := ws[..|ws| - 1], ws[|ws| - 1].Key();
      Log(m, init)[key := Get(Applied(m, init), key)]
  }

  function Undone(m: NodeMap, log: UndoLog): NodeMap {
    (map k | k in log && log[k].Some? :: log[k].value) + (m - log.Keys)
  }

  function Keys(ws: seq<Write>): set<string> {
    set w | w in ws :: w.Key()
  }

  ghost predicate DistinctKeys(ws: seq<Write>) {
    forall i, j :: 0 <= i < j < |ws| ==> ws[i].Key() != ws[j].Key()
  }

  // ---- what a write sequence does to one key ----

  lemma {:induction false} AppliedOther(m: NodeMap, ws: seq<Write>, id: string)
    requires forall w {:trigger w in ws} :: w in ws ==> w.Key() != id
    ensures Get(Applied(m, ws), id) == Get(m, id) && id !in Log(m, ws)
  {
    if ws != [] {
      var init, last := ws[..|ws| - 1], ws[|ws| - 1];
      assert last in ws && forall w :: w in init ==> w in ws;
      AppliedOther(m, init, id);
    }
  }

  lemma {:induction false} LogKeys(m: NodeMap, ws: seq<Write>)
    ensures Log(m, ws).Keys == Keys(ws)
  {
    if ws != [] {
      var init, last := ws[..|ws| - 1], ws[|ws| - 1];
      LogKeys(m, init);
      assert ws == init + [last];
      assert Keys(ws) == Keys(init) + {last.Key()};
    }
  }

  // The record of a key is its content just before the key's last write.
  lemma {:induction false} LogAt(m: NodeMap, ws: seq<Write>, i: nat)
    requires i < |ws| && forall j :: i < j < |ws| ==> ws[j].Key() != ws[i].Key()
    ensures ws[i].Key() in Log(m, ws) && Log(m, ws)[ws[i].Key()] == Get(Applied(m, ws[..i]), ws[i].Key())
  {
    var init := ws[..|ws| - 1];
    if i < |init| {
      LogAt(m, init, i);
      assert init[..i] == ws[..i];
    }
  }

  // Undoing restores a map exactly when every key held, before its last write, what it held at first.
  lemma UndoneOther(m: NodeMap, ws: seq<Write>, id: string)
    requires id !in Keys(ws)
    ensures Get(Undone(Applied(m, ws), Log(m, ws)), id) == Get(m, id)
  {
    forall w {:trigger w in ws} | w in ws ensures w.Key() != id { assert w.Key() in Keys(ws); }
    AppliedOther(m, ws, id);
    LogKeys(m, ws);
  }

  lemma SameMaps(a: NodeMap, b: NodeMap)
    requires forall id :: Get(a, id) == Get(b, id)
    ensures a == b
  {
    forall id ensures id in a <==> id in b { assert Get(a, id) == Get(b, id); }
    forall id | id in a ensures a[id] == b[id] { assert Get(a, id) == Get(b, id); }
  }

  lemma UndoExact(m: NodeMap, ws: seq<Write>)
    requires DistinctKeys(ws)
    ensures Undone(Applied(m, ws), Log(m, ws)) == m
  {
    forall id ensures Get(Undone(Applied(m, ws), Log(m, ws)), id) == Get(m, id) {
      if id in Keys(ws) {
        var w :| w in ws && w.Key() == id;
        var i :| 0 <= i < |ws| && ws[i] == w;
        LogAt(m, ws, i);
        forall v {:trigger v in ws[..i]} | v in ws[..i] ensures v.Key() != id {
          var j :| 0 <= j < i && ws[..i][j] == v;
        }
        AppliedOther(m, ws[..i], id);
      } else {
        UndoneOther(m, ws, id);
      }
    }
    SameMaps(Undone(Applied(m, ws), Log(m, ws)), m);
  }

  // ---- memory and table agree ----

  ghost predicate Keyed(m: NodeMap) {
    forall id {:trigger m[id]} :: id in m ==> m[id].id == id
  }

  lemma {:induction false} AppliedKeyed(m: NodeMap, ws: seq<Write>)
    requires Keyed(m)
    ensures Keyed(Applied(m, ws))
  {
    if ws != [] { AppliedKeyed(m, ws[..|ws| - 1]); }
  }
}

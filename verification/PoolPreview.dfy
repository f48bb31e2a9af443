/**
  Previewing which nodes stay in the pool, join it or leave it after a connectivity job.
 */
module PoolPreview {
  import opened Orders

  // A node's fingerprint stands for its route; only an eligible node can be selected.
  datatype Node = Node(id: string, fingerprint: string, tags: set<string>, inPool: bool, eligible: bool)

  datatype Pair = Pair(node: string, target: string)

  datatype TestedRoute = TestedRoute(fingerprint: string, success: bool, tags: set<string>)

  type Results = map<Pair, TestedRoute>

  datatype Preview = Preview(currentPool: nat, unaffected: nat, retained: nat, added: nat, sharedRetained: nat, removed: nat,
                             nonQualifying: nat, willFail: nat, qualifying: nat, projectedPool: nat, stale: nat, emptyBlocked: bool)

  ghost predicate DistinctNodes(current: seq<Node>) {
    forall i, j :: 0 <= i < j < |current| ==> current[i].id != current[j].id
  }

  // ---- which nodes are looked at, and which qualify ----

  // Of several eligible nodes on one route the last listed one stands for it.
  function ByFingerprint(current: seq<Node>): map<string, Node> {
    if current == [] then map[]
    else
      var last := current[|current| - 1];
      var rest := ByFingerprint(current[..|current| - 1]);
      if last.eligible then rest[last.fingerprint := last] else rest
  }

  predicate Intersects(a: set<string>, b: set<string>) {
    a * b != {}
  }

  predicate Complete(node: Node, targets: seq<string>, results: Results) {
    forall t :: t in targets ==> Pair(node.id, t) in results && results[Pair(node.id, t)].fingerprint == node.fingerprint
  }

  predicate Passed(node: Node, targets: seq<string>, results: Results) {
    Complete(node, targets, results) && forall t :: t in targets ==> results[Pair(node.id, t)].success
  }

  function SelectedIds(routes: map<string, Node>, tags: set<string>): set<string> {
    set f | f in routes && Intersects(routes[f].tags, tags) :: routes[f].id
  }

  function QualifyingIds(routes: map<string, Node>, tags: set<string>, targets: seq<string>, results: Results): set<string> {
    set f | f in routes && Intersects(routes[f].tags, tags) && Passed(routes[f], targets, results) :: routes[f].id
  }

  function StaleRoutes(routes: map<string, Node>, tags: set<string>, targets: seq<string>, results: Results): set<string> {
    (set f | f in routes && Intersects(routes[f].tags, tags) && !Complete(routes[f], targets, results))
    + (set p | p in results && Intersects(results[p].tags, tags) && results[p].fingerprint !in routes :: results[p].fingerprint)
  }

  lemma {:induction false} RoutesFacts(current: seq<Node>, f: string)
    requires f in ByFingerprint(current)
    ensures ByFingerprint(current)[f] in current && ByFingerprint(current)[f].fingerprint == f
  {
    if current != [] {
      var init, last := current[..|current| - 1], current[|current| - 1];
      assert current == init + [last];
      if !(last.eligible && last.fingerprint == f) {
        RoutesFacts(init, f);
      }
    }
  }

  method IndexRoutes(current: seq<Node>) returns (routes: map<string, Node>)
    ensures routes == ByFingerprint(current)
  {
    routes := map[];
    for i := 0 to |current|
      invariant routes == ByFingerprint(current[..i])
    {
      assert current[..i + 1][..i] == current[..i];
      if current[i].eligible {
        routes := routes[current[i].fingerprint := current[i]];
      }
    }
    assert current[..|current|] == current;
  }

  // One node against the targets: stops at the first missing or outdated result.
  method Examine(node: Node, targets: seq<string>, results: Results) returns (complete: bool, passed: bool)
    ensures complete == Complete(node, targets, results) && passed == Passed(node, targets, results)
  {
    complete, passed := true, true;
    for i := 0 to |targets|
      invariant complete == Complete(node, targets[..i], results) && passed == Passed(node, targets[..i], results) && complete
    {
      assert targets[..i + 1] == targets[..i] + [targets[i]];
      var key := Pair(node.id, targets[i]);
      if key !in results || results[key].fingerprint != node.fingerprint {
        assert targets[i] in targets;
        return false, false;
      }
      if !results[key].success {
        passed := false;
      }
    }
    assert targets[..|targets|] == targets;
  }

  ghost predicate Examined(routes: map<string, Node>, done: set<string>, tags: set<string>, targets: seq<string>, results: Results,
                           selected: set<string>, qualifying: set<string>, stale: set<string>) {
    var seen := map f | f in done && f in routes :: routes[f];
    && selected == SelectedIds(seen, tags)
    && qualifying == QualifyingIds(seen, tags, targets, results)
    && stale == set f | f in seen && Intersects(seen[f].tags, tags) && !Complete(seen[f], targets, results)
  }

  lemma ExamineStep(routes: map<string, Node>, done: set<string>, tags: set<string>, targets: seq<string>, results: Results,
                    selected: set<string>, qualifying: set<string>, stale: set<string>, f: string)
    requires f in routes && Examined(routes, done, tags, targets, results, selected, qualifying, stale)
    ensures var node := routes[f];
            if !Intersects(node.tags, tags) then Examined(routes, done + {f}, tags, targets, results, selected, qualifying, stale)
            else
              Examined(routes, done + {f}, tags, targets, results, selected + {node.id},
                       if Passed(node, targets, results) then qualifying + {node.id} else qualifying,
                       if Complete(node, targets, results) then stale else stale + {f})
  {
    var seen := map g | g in done && g in routes :: routes[g];
    var seen' := map g | g in done + {f} && g in routes :: routes[g];
    assert seen' == seen[f := routes[f]];
    assert f in seen ==> seen' == seen && routes[f] == seen[f];
    OneMoreRoute(seen, f, routes[f], tags, targets, results);
  }

  lemma OneMoreRoute(seen: map<string, Node>, f: string, node: Node, tags: set<string>, targets: seq<string>, results: Results)
    requires f in seen ==> seen[f] == node
    ensures var more := seen[f := node];
            && SelectedIds(more, tags) == SelectedIds(seen, tags) + (if Intersects(node.tags, tags) then {node.id} else {})
            && QualifyingIds(more, tags, targets, results) ==
               QualifyingIds(seen, tags, targets, results) + (if Intersects(node.tags, tags) && Passed(node, targets, results) then {node.id} else {})
            && (set g | g in more && Intersects(more[g].tags, tags) && !Complete(more[g], targets, results)) ==
               (set g | g in seen && Intersects(seen[g].tags, tags) && !Complete(seen[g], targets, results))
               + (if Intersects(node.tags, tags) && !Complete(node, targets, results) then {f} else {})
  {
    hide Complete, Passed, Intersects;
    var more := seen[f := node];
    assert more[f] == node && f in more;
    forall g | g in seen ensures g in more && more[g] == seen[g] { }
  }

  // ---- what happens to each node ----

  // A failing node with a tag outside the selection is left to that tag.
  predicate Shared(node: Node, tags: set<string>) {
    !(node.tags <= tags)
  }

  predicate Desired(node: Node, selected: set<string>, qualifying: set<string>, tags: set<string>) {
    if node.id !in selected then node.inPool
    else node.id in qualifying || (Shared(node, tags) && node.inPool)
  }

  predicate WillFail(node: Node, selected: set<string>, qualifying: set<string>, tags: set<string>) {
    node.id in selected && node.id !in qualifying && !Shared(node, tags)
  }

  // The nodes a pass over the list has met: all of them, and those in the pool.
  datatype Met = Met(seen: set<string>, pool: set<string>)

  function MetNode(met: Met, node: Node): Met {
    Met(met.seen + {node.id}, if node.inPool then met.pool + {node.id} else met.pool)
  }

  // Every number is the size of what it is called after.
  ghost predicate Counted(v: Preview, desired: set<string>, failed: set<string>, selected: set<string>, qualifying: set<string>, met: Met) {
    && desired <= met.seen && failed <= met.seen && desired !! failed && met.pool <= met.seen
    && v.currentPool == |met.pool|
    && v.unaffected == |met.pool - selected|
    && v.retained == |met.pool * qualifying|
    && v.added == |desired - met.pool|
    && v.sharedRetained == |(desired * selected) - qualifying|
    && v.removed == |met.pool - desired|
    && v.nonQualifying == |(met.seen * selected) - qualifying|
    && v.willFail == |failed|
    && v.currentPool == v.unaffected + v.retained + v.sharedRetained + v.removed
    && |desired| == v.unaffected + v.retained + v.added + v.sharedRetained
    && |qualifying * met.seen| == v.retained + v.added
  }

  function Zero(): Preview {
    Preview(0, 0, 0, 0, 0, 0, 0, 0, 0, 0, 0, false)
  }

  function CountNode(v: Preview, node: Node, selected: set<string>, qualifying: set<string>, tags: set<string>): Preview {
    var w := if node.inPool then v.(currentPool := v.currentPool + 1) else v;
    if node.id !in selected then (if node.inPool then w.(unaffected := w.unaffected + 1) else w)
    else if node.id in qualifying then (if node.inPool then w.(retained := w.retained + 1) else w.(added := w.added + 1))
    else
      var x := w.(nonQualifying := w.nonQualifying + 1);
      if Shared(node, tags) then (if node.inPool then x.(sharedRetained := x.sharedRetained + 1) else x)
      else
        var y := x.(willFail := x.willFail + 1);
        if node.inPool then y.(removed := y.removed + 1) else y
  }

  function Adding(s: set<string>, id: string, more: bool): set<string> {
    s + if more then {id} else {}
  }

  // What one more node does to the sets that are counted.
  lemma MetStep(desired: set<string>, failed: set<string>, selected: set<string>, qualifying: set<string>, met: Met, node: Node,
                wanted: bool, fails: bool)
    requires desired <= met.seen && failed <= met.seen && met.pool <= met.seen && node.id !in met.seen && qualifying <= selected
    requires desired !! failed && !(wanted && fails)
    ensures var id, met', desired', failed' := node.id, MetNode(met, node), Adding(desired, node.id, wanted), Adding(failed, node.id, fails);
            && desired' <= met'.seen && failed' <= met'.seen && desired' !! failed' && met'.pool <= met'.seen
            && met'.pool == Adding(met.pool, id, node.inPool)
            && met'.pool - selected == Adding(met.pool - selected, id, node.inPool && id !in selected)
            && met'.pool * qualifying == Adding(met.pool * qualifying, id, node.inPool && id in qualifying)
            && desired' - met'.pool == Adding(desired - met.pool, id, wanted && !node.inPool)
            && (desired' * selected) - qualifying == Adding((desired * selected) - qualifying, id, wanted && id in selected && id !in qualifying)
            && met'.pool - desired' == Adding(met.pool - desired, id, node.inPool && !wanted)
            && (met'.seen * selected) - qualifying == Adding((met.seen * selected) - qualifying, id, id in selected && id !in qualifying)
            && qualifying * met'.seen == Adding(qualifying * met.seen, id, id in qualifying)
  {
  }

  function Bit(b: bool): nat {
    if b then 1 else 0
  }

  lemma MetSizes(desired: set<string>, failed: set<string>, selected: set<string>, qualifying: set<string>, met: Met, node: Node,
                 wanted: bool, fails: bool)
    requires desired <= met.seen && failed <= met.seen && met.pool <= met.seen && node.id !in met.seen && qualifying <= selected
    requires desired !! failed && !(wanted && fails)
    ensures var id, met', desired', failed' := node.id, MetNode(met, node), Adding(desired, node.id, wanted), Adding(failed, node.id, fails);
            && desired' <= met'.seen && failed' <= met'.seen && desired' !! failed' && met'.pool <= met'.seen
            && |desired'| == |desired| + Bit(wanted) && |failed'| == |failed| + Bit(fails)
            && |met'.pool| == |met.pool| + Bit(node.inPool)
            && |met'.pool - selected| == |met.pool - selected| + Bit(node.inPool && id !in selected)
            && |met'.pool * qualifying| == |met.pool * qualifying| + Bit(node.inPool && id in qualifying)
            && |desired' - met'.pool| == |desired - met.pool| + Bit(wanted && !node.inPool)
            && |(desired' * selected) - qualifying| == |(desired * selected) - qualifying| + Bit(wanted && id in selected && id !in qualifying)
            && |met'.pool - desired'| == |met.pool - desired| + Bit(node.inPool && !wanted)
            && |(met'.seen * selected) - qualifying| == |(met.seen * selected) - qualifying| + Bit(id in selected && id !in qualifying)
            && |qualifying * met'.seen| == |qualifying * met.seen| + Bit(id in qualifying)
  {
    hide MetNode, Adding;
    var id := node.id;
    MetStep(desired, failed, selected, qualifying, met, node, wanted, fails);
    AddingSize(desired, id, wanted);
    AddingSize(failed, id, fails);
    AddingSize(met.pool, id, node.inPool);
    AddingSize(met.pool - selected, id, node.inPool && id !in selected);
    AddingSize(met.pool * qualifying, id, node.inPool && id in qualifying);
    AddingSize(desired - met.pool, id, wanted && !node.inPool);
    AddingSize((desired * selected) - qualifying, id, wanted && id in selected && id !in qualifying);
    AddingSize(met.pool - desired, id, node.inPool && !wanted);
    AddingSize((met.seen * selected) - qualifying, id, id in selected && id !in qualifying);
    AddingSize(qualifying * met.seen, id, id in qualifying);
  }

  lemma AddingSize(s: set<string>, id: string, more: bool)
    requires id !in s
    ensures |Adding(s, id, more)| == |s| + Bit(more)
  {
  }

  lemma CountedStep(v: Preview, node: Node, selected: set<string>, qualifying: set<string>, tags: set<string>,
                    desired: set<string>, failed: set<string>, met: Met)
    requires Counted(v, desired, failed, selected, qualifying, met) && node.id !in met.seen && qualifying <= selected
    ensures Counted(CountNode(v, node, selected, qualifying, tags),
                    Adding(desired, node.id, Desired(node, selected, qualifying, tags)), Adding(failed, node.id, WillFail(node, selected, qualifying, tags)),
                    selected, qualifying, MetNode(met, node))
  {
    hide Shared, MetNode, Adding;
    MetSizes(desired, failed, selected, qualifying, met, node, Desired(node, selected, qualifying, tags), WillFail(node, selected, qualifying, tags));
  }

  lemma AddingIs(s: set<string>, id: string, more: bool)
    ensures Adding(s, id, more) == if more then s + {id} else s
  {
  }

  // ---- the selection ----

  // Which nodes the decisions so far are about.
  ghost predicate Decided(current: seq<Node>, i: nat, selected: set<string>, qualifying: set<string>, tags: set<string>,
                          desired: set<string>, failed: set<string>, seen: set<string>)
    requires i <= |current|
  {
    && (forall k :: 0 <= k < i ==> current[k].id in seen)
    && (forall k {:trigger current[k]} :: 0 <= k < i ==> (current[k].id in desired <==> Desired(current[k], selected, qualifying, tags)))
    && (forall k {:trigger current[k]} :: 0 <= k < i ==> (current[k].id in failed <==> WillFail(current[k], selected, qualifying, tags)))
    && (forall id :: id in seen ==> exists k :: 0 <= k < i && current[k].id == id)
  }

  lemma DecidedStep(current: seq<Node>, i: nat, selected: set<string>, qualifying: set<string>, tags: set<string>,
                    desired: set<string>, failed: set<string>, seen: set<string>)
    requires DistinctNodes(current) && i < |current| && desired <= seen && failed <= seen
    requires Decided(current, i, selected, qualifying, tags, desired, failed, seen)
    ensures var node := current[i];
            && node.id !in seen
            && Decided(current, i + 1, selected, qualifying, tags,
                       if Desired(node, selected, qualifying, tags) then desired + {node.id} else desired,
                       if WillFail(node, selected, qualifying, tags) then failed + {node.id} else failed, seen + {node.id})
  {
    hide Desired, WillFail;
    forall k | 0 <= k < i ensures current[k].id != current[i].id { }
    forall id | id in seen + {current[i].id} ensures exists k :: 0 <= k < i + 1 && current[k].id == id {
      if id != current[i].id {
        var k :| 0 <= k < i && current[k].id == id;
      } else {
        assert current[i].id == id;
      }
    }
  }

  method Survey(routes: map<string, Node>, order: seq<string>, tags: set<string>, targets: seq<string>, results: Results)
    returns (selected: set<string>, qualifying: set<string>, stale: set<string>)
    requires Enumerates(order, routes.Keys)
    ensures selected == SelectedIds(routes, tags) && qualifying == QualifyingIds(routes, tags, targets, results)
    ensures stale == set f | f in routes && Intersects(routes[f].tags, tags) && !Complete(routes[f], targets, results)
  {
    hide Examined, Complete, Passed;
    selected, qualifying, stale := {}, {}, {};
    ExaminedNone(routes, tags, targets, results);
    for i := 0 to |order|
      invariant Examined(routes, Members(order[..i]), tags, targets, results, selected, qualifying, stale)
    {
      assert order[..i + 1] == order[..i] + [order[i]];
      assert Members(order[..i + 1]) == Members(order[..i]) + {order[i]};
      assert order[i] in order;
      var node := routes[order[i]];
      ExamineStep(routes, Members(order[..i]), tags, targets, results, selected, qualifying, stale, order[i]);
      if !Intersects(node.tags, tags) {
        continue;
      }
      selected := selected + {node.id};
      var complete, passed := Examine(node, targets, results);
      if !complete {
        PassedComplete(node, targets, results);
        stale := stale + {order[i]};
        continue;
      }
      if passed {
        qualifying := qualifying + {node.id};
      }
    }
    assert order[..|order|] == order;
    ExaminedAll(routes, Members(order), tags, targets, results, selected, qualifying, stale);
  }

  lemma PassedComplete(node: Node, targets: seq<string>, results: Results)
    ensures Passed(node, targets, results) ==> Complete(node, targets, results)
  {
  }

  lemma ExaminedNone(routes: map<string, Node>, tags: set<string>, targets: seq<string>, results: Results)
    ensures Examined(routes, Members([]), tags, targets, results, {}, {}, {})
  {
    assert (map f | f in Members([]) && f in routes :: routes[f]) == map[];
  }

  lemma ExaminedAll(routes: map<string, Node>, done: set<string>, tags: set<string>, targets: seq<string>, results: Results,
                    selected: set<string>, qualifying: set<string>, stale: set<string>)
    requires done == routes.Keys && Examined(routes, done, tags, targets, results, selected, qualifying, stale)
    ensures selected == SelectedIds(routes, tags) && qualifying == QualifyingIds(routes, tags, targets, results)
    ensures stale == set f | f in routes && Intersects(routes[f].tags, tags) && !Complete(routes[f], targets, results)
  {
    hide Complete, Passed;
    assert (map f | f in done && f in routes :: routes[f]) == routes;
  }

  // The two sets, node by node.
  ghost predicate Decisions(current: seq<Node>, tags: set<string>, targets: seq<string>, results: Results, desired: set<string>, failed: set<string>) {
    var routes := ByFingerprint(current);
    var selected, qualifying := SelectedIds(routes, tags), QualifyingIds(routes, tags, targets, results);
    && (forall k {:trigger current[k]} :: 0 <= k < |current| ==> (current[k].id in desired <==> Desired(current[k], selected, qualifying, tags)))
    && (forall k {:trigger current[k]} :: 0 <= k < |current| ==> (current[k].id in failed <==> WillFail(current[k], selected, qualifying, tags)))
    && desired !! failed
    && (forall id :: id in desired + failed ==> exists k :: 0 <= k < |current| && current[k].id == id)
  }

  function Ids(current: seq<Node>): set<string> {
    set node | node in current :: node.id
  }

  function PoolIds(current: seq<Node>): set<string> {
    set node | node in current && node.inPool :: node.id
  }

  // The published numbers: each is the size of what it is called after, and they add up.
  ghost predicate NumbersAddUp(v: Preview, current: seq<Node>, desired: set<string>, failed: set<string>, selected: set<string>, qualifying: set<string>) {
    && Counted(v, desired, failed, selected, qualifying, Met(Ids(current), PoolIds(current)))
    && v.projectedPool == |desired| == v.currentPool + v.added - v.removed
    && v.qualifying == |qualifying| == v.retained + v.added
    && (v.emptyBlocked <==> qualifying == {})
  }

  // ---- the same, told by the list alone ----

  // The node stands for its route and has one of the tags.
  ghost predicate Chosen(current: seq<Node>, k: nat, tags: set<string>) {
    && k < |current| && current[k].eligible
    && (forall j {:trigger current[j]} :: k < j < |current| && current[j].eligible ==> current[j].fingerprint != current[k].fingerprint)
    && (exists tag :: tag in current[k].tags && tag in tags)
  }

  // A chosen node stays or joins if every target has a current success for it; else it stays only for
  // a tag that was not selected.  Every other node keeps its membership.
  ghost predicate ByNode(current: seq<Node>, tags: set<string>, targets: seq<string>, results: Results, desired: set<string>, failed: set<string>) {
    forall k {:trigger current[k]} :: 0 <= k < |current| ==>
      var node := current[k];
      var passed := forall t :: t in targets ==>
          Pair(node.id, t) in results && results[Pair(node.id, t)].success && results[Pair(node.id, t)].fingerprint == node.fingerprint;
      var elsewhere := exists tag :: tag in node.tags && tag !in tags;
      && (node.id in desired <==> if Chosen(current, k, tags) then passed || (elsewhere && node.inPool) else node.inPool)
      && (node.id in failed <==> Chosen(current, k, tags) && !passed && !elsewhere)
  }

  lemma {:induction false} StandsFor(current: seq<Node>, k: nat)
    requires DistinctNodes(current) && k < |current|
    ensures current[k].fingerprint in ByFingerprint(current) && ByFingerprint(current)[current[k].fingerprint] == current[k] <==>
            current[k].eligible && forall j {:trigger current[j]} :: k < j < |current| && current[j].eligible ==> current[j].fingerprint != current[k].fingerprint
  {
    var init, last := current[..|current| - 1], current[|current| - 1];
    if k < |init| {
      StandsFor(init, k);
      assert last.id != current[k].id;
    } else if !last.eligible && last.fingerprint in ByFingerprint(current) {
      RoutesFacts(init, last.fingerprint);
      var i :| 0 <= i < |init| && init[i] == ByFingerprint(current)[last.fingerprint];
      assert current[i] == init[i];
    }
  }

  lemma ChosenSelected(current: seq<Node>, k: nat, tags: set<string>, targets: seq<string>, results: Results)
    requires DistinctNodes(current) && k < |current|
    ensures var routes := ByFingerprint(current);
            && (current[k].id in SelectedIds(routes, tags) <==> Chosen(current, k, tags))
            && (current[k].id in QualifyingIds(routes, tags, targets, results) <==> Chosen(current, k, tags) && Passed(current[k], targets, results))
  {
    hide Passed, ByFingerprint;
    var routes := ByFingerprint(current);
    StandsFor(current, k);
    forall f | f in routes && routes[f].id == current[k].id ensures routes[f] == current[k] && f == current[k].fingerprint {
      RoutesFacts(current, f);
      SameNode(current, routes[f], current[k]);
    }
    TagsMeet(current[k].tags, tags);
  }

  lemma TagsMeet(a: set<string>, b: set<string>)
    ensures Intersects(a, b) <==> exists tag :: tag in a && tag in b
    ensures !(a <= b) <==> exists tag :: tag in a && tag !in b
  {
    if tag :| tag in a && tag in b { assert tag in a * b; }
    if Intersects(a, b) { var tag :| tag in a * b; }
  }

  lemma DecidedByNode(current: seq<Node>, tags: set<string>, targets: seq<string>, results: Results, desired: set<string>, failed: set<string>)
    requires DistinctNodes(current) && Decisions(current, tags, targets, results, desired, failed)
    ensures ByNode(current, tags, targets, results, desired, failed)
  {
    hide Chosen, SelectedIds, QualifyingIds, ByFingerprint, Intersects;
    forall k {:trigger current[k]} | 0 <= k < |current|
      ensures (current[k].id in desired <==>
                 if Chosen(current, k, tags) then Passed(current[k], targets, results) || (Shared(current[k], tags) && current[k].inPool)
                 else current[k].inPool)
      ensures (current[k].id in failed <==> Chosen(current, k, tags) && !Passed(current[k], targets, results) && !Shared(current[k], tags))
      ensures Shared(current[k], tags) <==> exists tag :: tag in current[k].tags && tag !in tags
    {
      hide Passed;
      ChosenSelected(current, k, tags, targets, results);
      TagsMeet(current[k].tags, tags);
    }
  }

  lemma MetMore(current: seq<Node>, i: nat)
    requires i < |current|
    ensures Met(Ids(current[..i + 1]), PoolIds(current[..i + 1])) == MetNode(Met(Ids(current[..i]), PoolIds(current[..i])), current[i])
  {
    assert current[..i + 1] == current[..i] + [current[i]];
    assert forall n :: n in current[..i + 1] <==> n in current[..i] || n == current[i];
  }

  lemma MetNone(current: seq<Node>)
    ensures Met(Ids(current[..0]), PoolIds(current[..0])) == Met({}, {})
  {
  }

  // What the preview says and the two sets it stands for.
  method SelectPool(current: seq<Node>, tags: set<string>, targets: seq<string>, results: Results)
    returns (preview: Preview, desired: set<string>, failed: set<string>)
    requires DistinctNodes(current)
    ensures Decisions(current, tags, targets, results, desired, failed) && ByNode(current, tags, targets, results, desired, failed)
    ensures var routes := ByFingerprint(current);
            NumbersAddUp(preview, current, desired, failed, SelectedIds(routes, tags), QualifyingIds(routes, tags, targets, results))
    ensures preview.stale == |StaleRoutes(ByFingerprint(current), tags, targets, results)|
  {
    hide *;
    var routes := IndexRoutes(current);
    var order := AnyOrder(routes.Keys);
    var selected, qualifying, stale := Survey(routes, order, tags, targets, results);
    var outdated := OutdatedRoutes(routes, tags, results);
    StaleIs(routes, tags, targets, results, stale);
    QualifyingSelected(routes, tags, targets, results);
    preview, desired, failed := Zero(), {}, {};
    ghost var met := Met({}, {});
    NothingDecided(current, selected, qualifying, tags);
    NothingCounted(selected, qualifying);
    MetNone(current);
    for i := 0 to |current|
      invariant met == Met(Ids(current[..i]), PoolIds(current[..i]))
      invariant Counted(preview, desired, failed, selected, qualifying, met)
      invariant Decided(current, i, selected, qualifying, tags, desired, failed, met.seen)
    {
      CountedSubsets(preview, desired, failed, selected, qualifying, met);
      DecidedStep(current, i, selected, qualifying, tags, desired, failed, met.seen);
      CountedStep(preview, current[i], selected, qualifying, tags, desired, failed, met);
      AddingIs(desired, current[i].id, Desired(current[i], selected, qualifying, tags));
      AddingIs(failed, current[i].id, WillFail(current[i], selected, qualifying, tags));
      MetMore(current, i);
      MetSeen(met, current[i]);
      met := MetNode(met, current[i]);
      preview, desired, failed := Classify(preview, current[i], selected, qualifying, tags, desired, failed);
    }
    assert current[..|current|] == current;
    DecisionsMade(current, tags, targets, results, selected, qualifying, met, desired, failed, preview);
    DecidedByNode(current, tags, targets, results, desired, failed);
    NumbersDone(preview, current, desired, failed, selected, qualifying, |stale + outdated|);
    preview := preview.(qualifying := |qualifying|, projectedPool := |desired|, stale := |stale + outdated|, emptyBlocked := |qualifying| == 0);
  }

  lemma MetSeen(met: Met, node: Node)
    ensures MetNode(met, node).seen == met.seen + {node.id}
  {
  }

  function OutdatedRoutes(routes: map<string, Node>, tags: set<string>, results: Results): set<string> {
    set p | p in results && Intersects(results[p].tags, tags) && results[p].fingerprint !in routes :: results[p].fingerprint
  }

  // The body of the pass over the current nodes.
  method Classify(given: Preview, node: Node, selected: set<string>, qualifying: set<string>, tags: set<string>,
                  wanted: set<string>, failing: set<string>)
    returns (preview: Preview, desired: set<string>, failed: set<string>)
    ensures preview == CountNode(given, node, selected, qualifying, tags)
    ensures desired == if Desired(node, selected, qualifying, tags) then wanted + {node.id} else wanted
    ensures failed == if WillFail(node, selected, qualifying, tags) then failing + {node.id} else failing
  {
    preview, desired, failed := given, wanted, failing;
    if node.inPool {
      preview := preview.(currentPool := preview.currentPool + 1);
    }
    if node.id !in selected {
      if node.inPool {
        desired := desired + {node.id};
        preview := preview.(unaffected := preview.unaffected + 1);
      }
      return;
    }
    if node.id in qualifying {
      desired := desired + {node.id};
      if node.inPool {
        preview := preview.(retained := preview.retained + 1);
      } else {
        preview := preview.(added := preview.added + 1);
      }
      return;
    }
    preview := preview.(nonQualifying := preview.nonQualifying + 1);
    if !(node.tags <= tags) {
      if node.inPool {
        desired := desired + {node.id};
        preview := preview.(sharedRetained := preview.sharedRetained + 1);
      }
      return;
    }
    failed := failed + {node.id};
    preview := preview.(willFail := preview.willFail + 1);
    if node.inPool {
      preview := preview.(removed := preview.removed + 1);
    }
  }

  lemma StaleIs(routes: map<string, Node>, tags: set<string>, targets: seq<string>, results: Results, stale: set<string>)
    requires stale == set f | f in routes && Intersects(routes[f].tags, tags) && !Complete(routes[f], targets, results)
    ensures stale + OutdatedRoutes(routes, tags, results) == StaleRoutes(routes, tags, targets, results)
  {
  }

  lemma QualifyingSelected(routes: map<string, Node>, tags: set<string>, targets: seq<string>, results: Results)
    ensures QualifyingIds(routes, tags, targets, results) <= SelectedIds(routes, tags)
  {
    hide Passed, Intersects;
  }

  lemma NothingDecided(current: seq<Node>, selected: set<string>, qualifying: set<string>, tags: set<string>)
    ensures Decided(current, 0, selected, qualifying, tags, {}, {}, {})
  {
  }

  lemma NothingCounted(selected: set<string>, qualifying: set<string>)
    ensures Counted(Zero(), {}, {}, selected, qualifying, Met({}, {}))
  {
    var none: set<string> := {};
    assert qualifying * none == none - selected == none * qualifying == (none * selected) - qualifying == none;
    assert |none| == 0;
  }

  lemma CountedSubsets(v: Preview, desired: set<string>, failed: set<string>, selected: set<string>, qualifying: set<string>, met: Met)
    requires Counted(v, desired, failed, selected, qualifying, met)
    ensures desired <= met.seen && failed <= met.seen && desired !! failed
  {
  }

  lemma NumbersDone(v: Preview, current: seq<Node>, desired: set<string>, failed: set<string>, selected: set<string>, qualifying: set<string>, stale: nat)
    requires Counted(v, desired, failed, selected, qualifying, Met(Ids(current), PoolIds(current))) && qualifying <= Ids(current)
    ensures NumbersAddUp(v.(qualifying := |qualifying|, projectedPool := |desired|, stale := stale, emptyBlocked := |qualifying| == 0),
                         current, desired, failed, selected, qualifying)
  {
    hide Ids, PoolIds, Counted;
    CountedTotals(v, desired, failed, selected, qualifying, Met(Ids(current), PoolIds(current)), stale);
  }

  lemma CountedTotals(v: Preview, desired: set<string>, failed: set<string>, selected: set<string>, qualifying: set<string>, met: Met, stale: nat)
    requires Counted(v, desired, failed, selected, qualifying, met) && qualifying <= met.seen
    ensures |desired| == v.currentPool + v.added - v.removed && |qualifying| == v.retained + v.added
    ensures Counted(v.(qualifying := |qualifying|, projectedPool := |desired|, stale := stale, emptyBlocked := |qualifying| == 0),
                    desired, failed, selected, qualifying, met)
  {
    assert qualifying * met.seen == qualifying;
  }

  lemma DecisionsMade(current: seq<Node>, tags: set<string>, targets: seq<string>, results: Results, selected: set<string>, qualifying: set<string>,
                      met: Met, desired: set<string>, failed: set<string>, v: Preview)
    requires var routes := ByFingerprint(current); selected == SelectedIds(routes, tags) && qualifying == QualifyingIds(routes, tags, targets, results)
    requires Decided(current, |current|, selected, qualifying, tags, desired, failed, met.seen)
    requires Counted(v, desired, failed, selected, qualifying, met)
    ensures Decisions(current, tags, targets, results, desired, failed) && qualifying <= met.seen
  {
    hide *;
    QualifyingListed(current, tags, targets, results);
    QualifyingSeen(current, tags, targets, results, met.seen, desired, failed);
    CountedSubsets(v, desired, failed, selected, qualifying, met);
    DecisionsAre(current, tags, targets, results, met.seen, desired, failed);
  }

  // Every qualifying id is some listed node's.
  lemma QualifyingListed(current: seq<Node>, tags: set<string>, targets: seq<string>, results: Results)
    ensures forall id :: id in QualifyingIds(ByFingerprint(current), tags, targets, results) ==> exists k :: 0 <= k < |current| && current[k].id == id
  {
    hide Passed, Intersects;
    var routes := ByFingerprint(current);
    forall id | id in QualifyingIds(routes, tags, targets, results) ensures exists k :: 0 <= k < |current| && current[k].id == id {
      var f :| f in routes && routes[f].id == id;
      RoutesFacts(current, f);
      var k :| 0 <= k < |current| && current[k] == routes[f];
    }
  }

  lemma QualifyingSeen(current: seq<Node>, tags: set<string>, targets: seq<string>, results: Results, seen: set<string>,
                       desired: set<string>, failed: set<string>)
    requires var routes := ByFingerprint(current);
             Decided(current, |current|, SelectedIds(routes, tags), QualifyingIds(routes, tags, targets, results), tags, desired, failed, seen)
    requires forall id :: id in QualifyingIds(ByFingerprint(current), tags, targets, results) ==> exists k :: 0 <= k < |current| && current[k].id == id
    ensures QualifyingIds(ByFingerprint(current), tags, targets, results) <= seen
  {
    hide ByFingerprint, SelectedIds, QualifyingIds, Desired, WillFail;
  }

  lemma DecisionsAre(current: seq<Node>, tags: set<string>, targets: seq<string>, results: Results, seen: set<string>,
                     desired: set<string>, failed: set<string>)
    requires var routes := ByFingerprint(current);
             Decided(current, |current|, SelectedIds(routes, tags), QualifyingIds(routes, tags, targets, results), tags, desired, failed, seen)
    requires desired <= seen && failed <= seen && desired !! failed
    ensures Decisions(current, tags, targets, results, desired, failed)
  {
    hide ByFingerprint, SelectedIds, QualifyingIds, Desired, WillFail;
  }

  // A node none of whose tags is selected keeps its membership.
  lemma OutsideUntouched(current: seq<Node>, tags: set<string>, targets: seq<string>, results: Results, node: Node)
    requires DistinctNodes(current) && node in current && !Intersects(node.tags, tags)
    ensures var routes := ByFingerprint(current);
            Desired(node, SelectedIds(routes, tags), QualifyingIds(routes, tags, targets, results), tags) == node.inPool
  {
    hide Passed, Intersects;
    var routes := ByFingerprint(current);
    forall f | f in routes ensures routes[f].id == node.id ==> routes[f] == node {
      RoutesFacts(current, f);
      SameNode(current, routes[f], node);
    }
  }

  lemma SameNode(current: seq<Node>, a: Node, b: Node)
    requires DistinctNodes(current) && a in current && b in current
    ensures a.id == b.id ==> a == b
  {
    var i :| 0 <= i < |current| && current[i] == a;
    var j :| 0 <= j < |current| && current[j] == b;
  }
}

/**
  Testing sites through nodes: a first pass over every pair of node and target, a second pass over
  the pairs that may be retried, and the counts published on the way.
 */
module SiteTargets {
  import opened Options

  datatype Pair = Pair(node: string, target: string)

  datatype SiteResult = SiteResult(success: bool, retryable: bool, firstSuccess: bool, latency: nat, error: string)

  datatype SiteEvent = SiteEvent(pair: Pair, result: SiteResult)

  datatype Count = Count(total: nat, done: int, passed: int, failed: int, retried: int, recovered: int)

  type Results = map<Pair, SiteResult>
  type Progress = map<string, Count>

  // What is handed to the listener, with the results it speaks about and the replies of the second
  // pass that are among them.
  datatype Snapshot = Snapshot(progress: Progress, results: Results, second: set<SiteEvent>)

  function Successes(results: Results, target: string): set<Pair> {
    set p | p in results && p.target == target && results[p].success
  }

  function Failures(results: Results, target: string): set<Pair> {
    set p | p in results && p.target == target && !results[p].success
  }

  function Retried(second: set<SiteEvent>, target: string): set<SiteEvent> {
    set e | e in second && e.pair.target == target
  }

  function Recovered(second: set<SiteEvent>, target: string): set<SiteEvent> {
    set e | e in second && e.pair.target == target && e.result.success
  }

  // The published numbers of a target are those of its results.
  ghost predicate CountExact(c: Count, results: Results, second: set<SiteEvent>, target: string) {
    && c.passed == |Successes(results, target)| && c.failed == |Failures(results, target)| && c.done == c.passed + c.failed
    && c.retried == |Retried(second, target)| && c.recovered == |Recovered(second, target)|
  }

  ghost predicate Exact(s: Snapshot, nodes: seq<string>) {
    && (forall pair {:trigger pair in s.results} :: pair in s.results ==> pair.node in nodes)
    && (forall target {:trigger s.progress[target]} :: target in s.progress ==>
          s.progress[target].total == |nodes| && CountExact(s.progress[target], s.results, s.second, target))
  }

  ghost predicate AllExact(published: seq<Snapshot>, nodes: seq<string>) {
    forall s {:trigger s in published} :: s in published ==> Exact(s, nodes)
  }

  // A pass replies at most once for a pair, and only for pairs it was asked about.
  ghost predicate Replies(events: seq<SiteEvent>, asked: set<Pair>) {
    && (forall i, j :: 0 <= i < j < |events| ==> events[i].pair != events[j].pair)
    && (forall e {:trigger e in events} :: e in events ==> e.pair in asked)
  }

  // ---- one more result ----

  lemma Without(s: set<Pair>, p: Pair)
    ensures |s + {p}| == |s| + if p in s then 0 else 1
    ensures |s - {p}| == |s| - if p in s then 1 else 0
  {
  }

  // The successes or failures of a target after one result is set.
  lemma SuccessesSet(results: Results, pair: Pair, r: SiteResult, target: string)
    ensures Successes(results[pair := r], target) ==
            if target == pair.target && r.success then Successes(results, target) + {pair} else Successes(results, target) - {pair}
  {
  }

  lemma FailuresSet(results: Results, pair: Pair, r: SiteResult, target: string)
    ensures Failures(results[pair := r], target) ==
            if target == pair.target && !r.success then Failures(results, target) + {pair} else Failures(results, target) - {pair}
  {
  }

  lemma InWhich(results: Results, pair: Pair, target: string)
    ensures pair in Successes(results, target) <==> pair in results && pair.target == target && results[pair].success
    ensures pair in Failures(results, target) <==> pair in results && pair.target == target && !results[pair].success
  {
  }

  lemma ResultAdded(results: Results, e: SiteEvent, target: string)
    requires e.pair !in results
    ensures var after := results[e.pair := e.result];
            && |Successes(after, target)| == |Successes(results, target)| + (if target == e.pair.target && e.result.success then 1 else 0)
            && |Failures(after, target)| == |Failures(results, target)| + (if target == e.pair.target && !e.result.success then 1 else 0)
  {
    hide Successes, Failures;
    InWhich(results, e.pair, target);
    SuccessesSet(results, e.pair, e.result, target);
    FailuresSet(results, e.pair, e.result, target);
    Without(Successes(results, target), e.pair);
    Without(Failures(results, target), e.pair);
  }

  lemma ResultReplaced(results: Results, pair: Pair, r: SiteResult, target: string)
    requires pair in results && !results[pair].success
    ensures var after, gained := results[pair := r], if target == pair.target && r.success then 1 else 0;
            && |Successes(after, target)| == |Successes(results, target)| + gained
            && |Failures(after, target)| == |Failures(results, target)| - gained
  {
    hide Successes, Failures;
    InWhich(results, pair, target);
    SuccessesSet(results, pair, r, target);
    FailuresSet(results, pair, r, target);
    Without(Successes(results, target), pair);
    Without(Failures(results, target), pair);
  }

  function Counted(c: Count, success: bool): Count {
    c.(done := c.done + 1, passed := c.passed + (if success then 1 else 0), failed := c.failed + if success then 0 else 1)
  }

  function Recounted(c: Count, recovered: bool): Count {
    var d := c.(retried := c.retried + 1);
    if recovered then d.(failed := d.failed - 1, passed := d.passed + 1, recovered := d.recovered + 1) else d
  }

  lemma FirstStep(progress: Progress, results: Results, nodes: seq<string>, e: SiteEvent)
    requires Exact(Snapshot(progress, results, {}), nodes) && e.pair !in results && e.pair.target in progress && e.pair.node in nodes
    ensures Exact(Snapshot(progress[e.pair.target := Counted(progress[e.pair.target], e.result.success)], results[e.pair := e.result], {}), nodes)
  {
    hide Successes, Failures;
    var progress' := progress[e.pair.target := Counted(progress[e.pair.target], e.result.success)];
    forall target {:trigger progress'[target]} | target in progress'
      ensures progress'[target].total == |nodes| && CountExact(progress'[target], results[e.pair := e.result], {}, target)
    {
      assert progress[target].total == |nodes| && CountExact(progress[target], results, {}, target);
      ResultAdded(results, e, target);
    }
  }

  lemma ReplyAdded(second: set<SiteEvent>, e: SiteEvent, target: string)
    requires e !in second
    ensures |Retried(second + {e}, target)| == |Retried(second, target)| + if target == e.pair.target then 1 else 0
    ensures |Recovered(second + {e}, target)| == |Recovered(second, target)| + if target == e.pair.target && e.result.success then 1 else 0
  {
    assert Retried(second + {e}, target) == Retried(second, target) + if target == e.pair.target then {e} else {};
    assert Recovered(second + {e}, target) == Recovered(second, target) + if target == e.pair.target && e.result.success then {e} else {};
  }

  lemma RetryStep(progress: Progress, results: Results, second: set<SiteEvent>, nodes: seq<string>, e: SiteEvent, r: SiteResult)
    requires Exact(Snapshot(progress, results, second), nodes) && e.pair.target in progress && e !in second && r.success == e.result.success
    requires e.pair in results && !results[e.pair].success
    ensures Exact(Snapshot(progress[e.pair.target := Recounted(progress[e.pair.target], e.result.success)], results[e.pair := r], second + {e}), nodes)
  {
    hide Successes, Failures, Retried, Recovered;
    var progress' := progress[e.pair.target := Recounted(progress[e.pair.target], e.result.success)];
    forall target {:trigger progress'[target]} | target in progress'
      ensures progress'[target].total == |nodes| && CountExact(progress'[target], results[e.pair := r], second + {e}, target)
    {
      assert progress[target].total == |nodes| && CountExact(progress[target], results, second, target);
      ResultReplaced(results, e.pair, r, target);
      ReplyAdded(second, e, target);
    }
  }

  // No more results than nodes.
  lemma DoneWithin(s: Snapshot, nodes: seq<string>, target: string)
    requires Exact(s, nodes) && target in s.progress
    ensures s.progress[target].done <= s.progress[target].total
  {
    var good, bad := Successes(s.results, target), Failures(s.results, target);
    assert CountExact(s.progress[target], s.results, s.second, target);
    assert good !! bad;
    var all := set p: Pair | p in good + bad :: p.node;
    assert |good + bad| == |all| by {
      assert forall p: Pair {:trigger p in good + bad} :: p in good + bad ==> p == Pair(p.node, target);
      PairsOfTarget(good + bad, target);
    }
    SetOfSeq(nodes);
    Within(all, set n | n in nodes);
  }

  lemma Within(a: set<string>, b: set<string>)
    requires a <= b
    ensures |a| <= |b|
  {
    assert b == a + (b - a);
  }

  lemma {:induction false} PairsOfTarget(pairs: set<Pair>, target: string)
    requires forall p {:trigger p in pairs} :: p in pairs ==> p == Pair(p.node, target)
    ensures |set p: Pair | p in pairs :: p.node| == |pairs|
  {
    if pairs == {} {
      assert (set p: Pair | p in pairs :: p.node) == {};
    } else {
      var q :| q in pairs;
      PairsOfTarget(pairs - {q}, target);
      assert (set p: Pair | p in pairs :: p.node) == (set p: Pair | p in pairs - {q} :: p.node) + {q.node};
      assert q.node !in set p: Pair | p in pairs - {q} :: p.node;
    }
  }

  lemma {:induction false} SetOfSeq(nodes: seq<string>)
    ensures |set n | n in nodes| <= |nodes|
  {
    if nodes == [] {
      assert (set n | n in nodes) == {};
    } else {
      SetOfSeq(nodes[1..]);
      assert (set n | n in nodes) == (set n | n in nodes[1..]) + {nodes[0]};
    }
  }

  lemma Publish(published: seq<Snapshot>, s: Snapshot, nodes: seq<string>)
    requires AllExact(published, nodes) && Exact(s, nodes)
    ensures AllExact(published + [s], nodes)
  {
    hide Exact;
    forall x {:trigger x in published + [s]} | x in published + [s] ensures Exact(x, nodes) { assert x in published || x == s; }
  }

  // ---- the passes ----

  method Start(targets: seq<string>, nodes: seq<string>) returns (progress: Progress)
    ensures progress.Keys == (set t | t in targets) && Exact(Snapshot(progress, map[], {}), nodes)
  {
    progress := map[];
    for i := 0 to |targets|
      invariant progress.Keys == (set t | t in targets[..i])
      invariant forall t {:trigger progress[t]} :: t in progress ==> progress[t] == Count(|nodes|, 0, 0, 0, 0, 0)
    {
      assert targets[..i + 1] == targets[..i] + [targets[i]];
      progress := progress[targets[i] := Count(|nodes|, 0, 0, 0, 0, 0)];
    }
    assert targets[..|targets|] == targets;
    NoResults(progress, nodes);
  }

  lemma NoResults(progress: Progress, nodes: seq<string>)
    requires forall t {:trigger progress[t]} :: t in progress ==> progress[t] == Count(|nodes|, 0, 0, 0, 0, 0)
    ensures Exact(Snapshot(progress, map[], {}), nodes)
  {
    forall t ensures Successes(map[], t) == {} && Failures(map[], t) == {} && Retried({}, t) == {} && Recovered({}, t) == {} { }
  }

  // Pairs the second pass is asked about.
  function RetryPairs(results: Results, asked: set<Pair>): set<Pair> {
    set p | p in asked && p in results && !results[p].success && results[p].retryable
  }

  method FirstPass(events: seq<SiteEvent>, asked: set<Pair>, given: Progress, ghost nodes: seq<string>)
    returns (results: Results, progress: Progress, published: seq<Snapshot>)
    requires Replies(events, asked) && Exact(Snapshot(given, map[], {}), nodes) && forall p :: p in asked ==> p.node in nodes
    ensures Exact(Snapshot(progress, results, {}), nodes) && AllExact(published, nodes) && progress.Keys == given.Keys
    ensures Current(published, Snapshot(progress, results, {}))
    ensures forall p :: p in results <==> p.target in given && exists i :: 0 <= i < |events| && events[i].pair == p
    ensures forall i :: 0 <= i < |events| && events[i].pair.target in given ==> results[events[i].pair] == events[i].result
  {
    hide Exact, AllExact;
    results, progress := map[], given;
    published := [Snapshot(progress, results, {})];
    Published0(nodes);
    Publish([], Snapshot(progress, results, {}), nodes);
    assert [] + [Snapshot(progress, results, {})] == published;
    for i := 0 to |events|
      invariant Exact(Snapshot(progress, results, {}), nodes) && AllExact(published, nodes) && progress.Keys == given.Keys
      invariant Current(published, Snapshot(progress, results, {}))
      invariant forall p :: p in results <==> p.target in given && exists j :: 0 <= j < i && events[j].pair == p
      invariant forall j :: 0 <= j < i && events[j].pair.target in given ==> results[events[j].pair] == events[j].result
    {
      var e := events[i];
      if e.pair.target !in progress {
        continue;
      }
      assert e.pair !in results;
      assert e in events && e.pair in asked;
      FirstStep(progress, results, nodes, e);
      results := results[e.pair := e.result];
      var item := progress[e.pair.target];
      item := item.(done := item.done + 1);
      if e.result.success {
        item := item.(passed := item.passed + 1);
      } else {
        item := item.(failed := item.failed + 1);
      }
      progress := progress[e.pair.target := item];
      Publish(published, Snapshot(progress, results, {}), nodes);
      published := published + [Snapshot(progress, results, {})];
    }
  }

  lemma Published0(nodes: seq<string>)
    ensures AllExact([], nodes)
  {
  }

  ghost predicate Earlier(events: seq<SiteEvent>, i: nat, p: Pair)
    requires i <= |events|
  {
    exists j :: 0 <= j < i && events[j].pair == p
  }

  lemma EarlierStep(events: seq<SiteEvent>, i: nat)
    requires i < |events|
    ensures forall p {:trigger Earlier(events, i + 1, p)} :: Earlier(events, i + 1, p) <==> Earlier(events, i, p) || p == events[i].pair
  {
  }

  ghost predicate Unanswered(second: seq<SiteEvent>, p: Pair) {
    forall r {:trigger r in second} :: r in second ==> r.pair != p
  }

  // The replies that are about one of the targets.
  function Heard(events: seq<SiteEvent>, targets: set<string>): set<SiteEvent> {
    set e | e in events && e.pair.target in targets
  }

  lemma HeardSteps(events: seq<SiteEvent>, targets: set<string>)
    ensures Heard(events[..0], targets) == {}
    ensures forall i {:trigger events[i]} :: 0 <= i < |events| ==>
              Heard(events[..i + 1], targets) == Heard(events[..i], targets) + if events[i].pair.target in targets then {events[i]} else {}
  {
    forall i {:trigger events[i]} | 0 <= i < |events|
      ensures Heard(events[..i + 1], targets) == Heard(events[..i], targets) + if events[i].pair.target in targets then {events[i]} else {}
    {
      assert events[..i + 1] == events[..i] + [events[i]];
    }
  }

  lemma NotHeard(events: seq<SiteEvent>, i: nat, targets: set<string>)
    requires i < |events| && !Earlier(events, i, events[i].pair)
    ensures events[i] !in Heard(events[..i], targets)
  {
  }

  // A retried pair keeps whether it had succeeded in the first pass.
  method RetryPass(events: seq<SiteEvent>, given: Results, start: Progress, before: seq<Snapshot>, asked: set<Pair>,
                   ghost nodes: seq<string>)
    returns (results: Results, progress: Progress, published: seq<Snapshot>)
    requires Replies(events, RetryPairs(given, asked)) && Exact(Snapshot(start, given, {}), nodes) && AllExact(before, nodes)
    requires Current(before, Snapshot(start, given, {}))
    ensures Exact(Snapshot(progress, results, Heard(events, start.Keys)), nodes) && AllExact(published, nodes) && before <= published
    ensures Current(published, Snapshot(progress, results, Heard(events, start.Keys)))
    ensures results.Keys == given.Keys && progress.Keys == start.Keys
    ensures forall p :: p in given && Unanswered(events, p) ==> results[p] == given[p]
    ensures forall i :: 0 <= i < |events| && events[i].pair.target in start && events[i].pair in given ==>
              results[events[i].pair] == events[i].result.(firstSuccess := given[events[i].pair].firstSuccess)
  {
    hide Exact, AllExact, Heard;
    results, progress, published := given, start, before;
    var second: set<SiteEvent> := {};
    HeardSteps(events, start.Keys);
    for i := 0 to |events|
      invariant Exact(Snapshot(progress, results, second), nodes) && AllExact(published, nodes) && before <= published
      invariant Current(published, Snapshot(progress, results, second)) && second == Heard(events[..i], start.Keys)
      invariant results.Keys == given.Keys && progress.Keys == start.Keys
      invariant forall p {:trigger Earlier(events, i, p)} {:trigger results[p]} :: p in given && !Earlier(events, i, p) ==> results[p] == given[p]
      invariant forall j :: 0 <= j < i && events[j].pair.target in start && events[j].pair in given ==>
                  results[events[j].pair] == events[j].result.(firstSuccess := given[events[j].pair].firstSuccess)
    {
      var e := events[i];
      assert e in events && e.pair in RetryPairs(given, asked);
      EarlierStep(events, i);
      if e.pair.target !in progress {
        continue;
      }
      assert !Earlier(events, i, e.pair);
      var previous := results[e.pair];
      assert previous == given[e.pair];
      var result := e.result.(firstSuccess := previous.firstSuccess);
      NotHeard(events, i, start.Keys);
      RetryStep(progress, results, second, nodes, e, result);
      second := second + {e};
      results := results[e.pair := result];
      var item := progress[e.pair.target];
      item := item.(retried := item.retried + 1);
      if !previous.success && e.result.success {
        item := item.(failed := item.failed - 1);
        item := item.(passed := item.passed + 1);
        item := item.(recovered := item.recovered + 1);
      }
      progress := progress[e.pair.target := item];
      Publish(published, Snapshot(progress, results, second), nodes);
      published := published + [Snapshot(progress, results, second)];
    }
    assert events[..|events|] == events;
    forall p | p in given && Unanswered(events, p) ensures results[p] == given[p] {
      forall j | 0 <= j < |events| ensures events[j].pair != p { assert events[j] in events; }
      assert !Earlier(events, |events|, p);
    }
  }

  function AskedPairs(nodes: seq<string>, targets: seq<string>): set<Pair> {
    set n, t | n in nodes && t in targets :: Pair(n, t)
  }

  ghost predicate Current(published: seq<Snapshot>, s: Snapshot) {
    published != [] && published[|published| - 1] == s
  }

  // Pairs whose first test failed in a way that may pass.
  function ToRetry(first: seq<SiteEvent>): set<Pair> {
    set e | e in first && !e.result.success && e.result.retryable :: e.pair
  }

  // The result of the first pass for each pair replied to, and no others.
  ghost predicate FromFirst(first: seq<SiteEvent>, results: Results) {
    && results.Keys == (set e | e in first :: e.pair)
    && forall e {:trigger e in first} :: e in first ==> e.pair in results && results[e.pair] == e.result
  }

  lemma FromFirstIs(first: seq<SiteEvent>, asked: set<Pair>, targets: set<string>, results: Results)
    requires Replies(first, asked) && forall p :: p in asked ==> p.target in targets
    requires forall p :: p in results <==> p.target in targets && exists i :: 0 <= i < |first| && first[i].pair == p
    requires forall i :: 0 <= i < |first| && first[i].pair.target in targets ==> results[first[i].pair] == first[i].result
    ensures FromFirst(first, results) && RetryPairs(results, asked) == ToRetry(first)
  {
    forall e {:trigger e in first} | e in first ensures e.pair in results && results[e.pair] == e.result {
      var i :| 0 <= i < |first| && first[i] == e;
      assert first[i].pair.target in targets;
    }
    assert results.Keys == set e | e in first :: e.pair;
    forall p ensures p in RetryPairs(results, asked) <==> p in ToRetry(first) {
      if p in RetryPairs(results, asked) {
        var i :| 0 <= i < |first| && first[i].pair == p;
        assert first[i] in first;
      }
    }
  }

  // What each pair ends with: the first result, or what the second pass replied for it.
  ghost predicate Settled(first: seq<SiteEvent>, second: seq<SiteEvent>, results: Results) {
    && results.Keys == (set e | e in first :: e.pair)
    && (forall e {:trigger e in first} :: e in first && Unanswered(second, e.pair) ==> e.pair in results && results[e.pair] == e.result)
    && (forall e, r {:trigger e in first, r in second} :: e in first && r in second && r.pair == e.pair ==>
          e.pair in results && results[e.pair] == r.result.(firstSuccess := e.result.firstSuccess))
  }

  lemma SettledFirst(first: seq<SiteEvent>, results: Results)
    requires FromFirst(first, results)
    ensures Settled(first, [], results)
  {
  }

  lemma SettledSecond(first: seq<SiteEvent>, second: seq<SiteEvent>, asked: set<Pair>, targets: set<string>, given: Results, results: Results)
    requires FromFirst(first, given) && Replies(second, asked) && asked <= given.Keys && forall p :: p in asked ==> p.target in targets
    requires results.Keys == given.Keys
    requires forall p :: p in given && Unanswered(second, p) ==> results[p] == given[p]
    requires forall i :: 0 <= i < |second| && second[i].pair.target in targets && second[i].pair in given ==>
               results[second[i].pair] == second[i].result.(firstSuccess := given[second[i].pair].firstSuccess)
    ensures Settled(first, second, results)
  {
    forall e, r {:trigger e in first, r in second} | e in first && r in second && r.pair == e.pair
      ensures e.pair in results && results[e.pair] == r.result.(firstSuccess := e.result.firstSuccess)
    {
      var i :| 0 <= i < |second| && second[i] == r;
      assert r.pair in asked;
    }
  }

  // `retry` is what the second pass replies for the pairs it is asked about: those that failed the
  // first test in a way that may pass.
  method VerifySiteTargets(nodes: seq<string>, targets: seq<string>, first: seq<SiteEvent>, retry: set<Pair> -> seq<SiteEvent>, canceled: bool)
    returns (results: Results, progress: Progress, published: seq<Snapshot>)
    requires Replies(first, AskedPairs(nodes, targets))
    requires forall asked: set<Pair> {:trigger retry(asked)} :: Replies(retry(asked), asked)
    ensures AllExact(published, nodes) && progress.Keys == (set t | t in targets)
    ensures forall s, t {:trigger s.progress[t], s in published} :: s in published && t in s.progress ==> s.progress[t].done <= s.progress[t].total
    ensures var second := if canceled || ToRetry(first) == {} then [] else retry(ToRetry(first));
            Settled(first, second, results) && Current(published, Snapshot(progress, results, set e | e in second))
  {
    hide Exact, AllExact, Replies, FromFirst, Settled, ToRetry, RetryPairs, Unanswered, Current, Heard;
    var asked := AskedPairs(nodes, targets);
    ghost var names := set t | t in targets;
    progress := Start(targets, nodes);
    results, progress, published := FirstPass(first, asked, progress, nodes);
    FromFirstIs(first, asked, names, results);
    var again := RetryPairs(results, asked);
    if canceled || again == {} {
      SettledFirst(first, results);
      assert {} == set e: SiteEvent | e in [];
    } else {
      assert Replies(retry(again), again);
      ghost var given := results;
      RetryWithin(given, asked);
      HeardAll(retry(again), again, names);
      results, progress, published := RetryPass(retry(again), results, progress, published, asked, nodes);
      SettledSecond(first, retry(again), again, names, given, results);
    }
    AllWithin(published, nodes);
  }

  lemma AllWithin(published: seq<Snapshot>, nodes: seq<string>)
    requires AllExact(published, nodes)
    ensures forall s, t {:trigger s.progress[t], s in published} :: s in published && t in s.progress ==> s.progress[t].done <= s.progress[t].total
  {
    hide Exact;
    forall s, t {:trigger s.progress[t], s in published} | s in published && t in s.progress ensures s.progress[t].done <= s.progress[t].total {
      DoneWithin(s, nodes, t);
    }
  }

  lemma HeardAll(second: seq<SiteEvent>, asked: set<Pair>, targets: set<string>)
    requires Replies(second, asked) && forall p :: p in asked ==> p.target in targets
    ensures Heard(second, targets) == set e | e in second
  {
  }

  lemma RetryWithin(results: Results, asked: set<Pair>)
    ensures RetryPairs(results, asked) <= results.Keys && RetryPairs(results, asked) <= asked
  {
  }

  // ---- verifyNodes ----

  datatype NodeResult = NodeResult(error: Option<string>, latency: nat)

  // A target of the policy the node has no successful result for.
  predicate Fails(results: Results, node: string, target: string) {
    Pair(node, target) !in results || !results[Pair(node, target)].success
  }

  function Latencies(results: Results, node: string, targets: seq<string>): nat {
    if targets == [] then 0
    else
      var last := targets[|targets| - 1];
      Latencies(results, node, targets[..|targets| - 1]) + if Pair(node, last) in results then results[Pair(node, last)].latency else 0
  }

  lemma LatencyNone(results: Results, node: string)
    ensures Latencies(results, node, []) == 0
  {
  }

  lemma LatencyAdds(results: Results, node: string, targets: seq<string>, i: nat)
    requires i < |targets|
    ensures Latencies(results, node, targets[..i + 1]) ==
            Latencies(results, node, targets[..i]) + if Pair(node, targets[i]) in results then results[Pair(node, targets[i])].latency else 0
  {
    assert targets[..i + 1][..i] == targets[..i];
  }

  // What is reported of a failing target; the wording is the model's.
  function FailureText(results: Results, node: string, target: string): string
    requires Fails(results, node, target)
  {
    if Pair(node, target) !in results then "incomplete " + target
    else "failed " + target + ": " + results[Pair(node, target)].error
  }

  ghost predicate FirstFailing(results: Results, node: string, targets: seq<string>, i: nat) {
    i < |targets| && Fails(results, node, targets[i]) && forall k :: 0 <= k < i ==> !Fails(results, node, targets[k])
  }

  // The node passes if it did so far and every target succeeds; otherwise the first failing target
  // is named.  Without the 204 test its latency is the mean over the targets.
  method CombineNode(given: NodeResult, node: string, targets: seq<string>, results: Results, test204: bool) returns (result: NodeResult)
    ensures forall i: nat {:trigger FirstFailing(results, node, targets, i)} :: FirstFailing(results, node, targets, i) ==>
              result == given.(error := Some(FailureText(results, node, targets[i])))
    ensures (forall t :: t in targets ==> !Fails(results, node, t)) ==>
              && result.error == given.error
              && result.latency == if !test204 && given.error.None? && |targets| > 0 then Latencies(results, node, targets) / |targets| else given.latency
  {
    hide Latencies;
    result := given;
    var total, count := 0, 0;
    LatencyNone(results, node);
    for i := 0 to |targets|
      invariant forall k :: 0 <= k < i ==> !Fails(results, node, targets[k])
      invariant count == i && total == Latencies(results, node, targets[..i]) && result == given
    {
      LatencyAdds(results, node, targets, i);
      if Pair(node, targets[i]) !in results {
        FirstIsFirst(results, node, targets, i);
        return given.(error := Some("incomplete " + targets[i]));
      }
      var site := results[Pair(node, targets[i])];
      if !site.success {
        FirstIsFirst(results, node, targets, i);
        return given.(error := Some("failed " + targets[i] + ": " + site.error));
      }
      total := total + site.latency;
      count := count + 1;
    }
    assert targets[..|targets|] == targets;
    if !test204 && result.error.None? && count > 0 {
      result := result.(latency := total / count);
    }
  }

  lemma FirstIsFirst(results: Results, node: string, targets: seq<string>, i: nat)
    requires FirstFailing(results, node, targets, i)
    ensures targets[i] in targets && forall j: nat {:trigger FirstFailing(results, node, targets, j)} :: FirstFailing(results, node, targets, j) ==> j == i
  {
  }
}

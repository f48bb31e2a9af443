/**
  Interleaving the routes of a connectivity job: one of every group in turn.
 */
module Interleave {
  import opened Options
  import opened SourceRefs

  datatype RouteToTest = RouteToTest(id: string, chainProfileId: string, tags: seq<string>)

  // The chain profile, or "direct", and the first tag if there is one.
  datatype Key = Key(chain: string, tag: Option<string>)

  function KeyOf(r: RouteToTest): Key {
    var chain := Trim(r.chainProfileId);
    Key(if chain == "" then "direct" else chain, if r.tags == [] then None else Some(r.tags[0]))
  }

  // Two routes are in one group if they have the same chain, where none goes by the name "direct", and
  // the same first tag or both none.
  lemma SameGroup(a: RouteToTest, b: RouteToTest)
    ensures KeyOf(a) == KeyOf(b) <==>
              && (|a.tags| == 0 <==> |b.tags| == 0) && (|a.tags| > 0 && |b.tags| > 0 ==> a.tags[0] == b.tags[0])
              && (Trim(a.chainProfileId) == Trim(b.chainProfileId)
                  || (Trim(a.chainProfileId) in {"", "direct"} && Trim(b.chainProfileId) in {"", "direct"}))
  {
    hide Trim;
  }

  // A group, in order.
  function Group(routes: seq<RouteToTest>, key: Key): seq<RouteToTest> {
    if routes == [] then []
    else
      var init, last := Group(routes[..|routes| - 1], key), routes[|routes| - 1];
      if KeyOf(last) == key then init + [last] else init
  }

  lemma GroupAdds(routes: seq<RouteToTest>, r: RouteToTest, key: Key)
    ensures Group(routes + [r], key) == if KeyOf(r) == key then Group(routes, key) + [r] else Group(routes, key)
  {
    assert (routes + [r])[..|routes|] == routes;
  }

  lemma {:induction false} GroupMembers(routes: seq<RouteToTest>, key: Key)
    ensures forall r :: r in Group(routes, key) ==> KeyOf(r) == key && r in routes
  {
    hide KeyOf;
    if routes != [] {
      GroupMembers(routes[..|routes| - 1], key);
    }
  }

  lemma {:induction false} GroupCounts(routes: seq<RouteToTest>, r: RouteToTest)
    ensures multiset(routes)[r] == multiset(Group(routes, KeyOf(r)))[r]
  {
    hide KeyOf;
    if routes != [] {
      var init, last := routes[..|routes| - 1], routes[|routes| - 1];
      assert routes == init + [last];
      GroupCounts(init, r);
    }
  }

  // Groups that are parts of the other list's groups make a part of the other list.
  lemma GroupsWithin(a: seq<RouteToTest>, b: seq<RouteToTest>)
    requires forall key {:trigger Group(a, key)} :: Group(a, key) <= Group(b, key)
    ensures |a| <= |b| && (|a| == |b| ==> multiset(a) == multiset(b))
  {
    hide Group;
    forall r ensures multiset(a)[r] <= multiset(b)[r] { CountWithin(a, b, r); }
    assert multiset(a) <= multiset(b);
    SubMultiset(multiset(a), multiset(b));
    assert |multiset(a)| == |a| && |multiset(b)| == |b|;
  }

  lemma CountWithin(a: seq<RouteToTest>, b: seq<RouteToTest>, r: RouteToTest)
    requires Group(a, KeyOf(r)) <= Group(b, KeyOf(r))
    ensures multiset(a)[r] <= multiset(b)[r]
  {
    hide Group, KeyOf;
    GroupCounts(a, r);
    GroupCounts(b, r);
    PrefixCount(Group(a, KeyOf(r)), Group(b, KeyOf(r)), r);
  }

  lemma PrefixCount(a: seq<RouteToTest>, b: seq<RouteToTest>, r: RouteToTest)
    requires a <= b
    ensures multiset(a)[r] <= multiset(b)[r]
  {
    assert b == a + b[|a|..];
    assert multiset(b) == multiset(a) + multiset(b[|a|..]);
  }

  lemma SubMultiset(a: multiset<RouteToTest>, b: multiset<RouteToTest>)
    requires a <= b
    ensures |a| <= |b| && (|a| == |b| ==> a == b)
  {
    assert b == a + (b - a);
    assert |b| == |a| + |b - a|;
  }

  // ---- fairness ----

  // Of two groups one is ahead by more than one only when the other is used up.
  ghost predicate FairPair(routes: seq<RouteToTest>, prefix: seq<RouteToTest>, a: Key, b: Key) {
    |Group(prefix, a)| + 1 < |Group(prefix, b)| ==> |Group(prefix, a)| == |Group(routes, a)|
  }

  ghost predicate Fair(routes: seq<RouteToTest>, prefix: seq<RouteToTest>) {
    forall a, b {:trigger FairPair(routes, prefix, a, b)} :: FairPair(routes, prefix, a, b)
  }

  ghost predicate AllFair(routes: seq<RouteToTest>, result: seq<RouteToTest>) {
    forall n {:trigger result[..n]} :: 0 <= n <= |result| ==> Fair(routes, result[..n])
  }

  // After `round` full rounds and, in this one, the keys of `done`.
  function Taken(routes: seq<RouteToTest>, round: nat, done: set<Key>, key: Key): (n: nat)
    ensures n <= |Group(routes, key)|
  {
    var turns, size := if key in done then round + 1 else round, |Group(routes, key)|;
    if turns < size then turns else size
  }

  ghost predicate InRound(routes: seq<RouteToTest>, result: seq<RouteToTest>, round: nat, done: set<Key>) {
    forall key {:trigger Group(result, key)} :: Group(result, key) == Group(routes, key)[..Taken(routes, round, done, key)]
  }

  lemma RoundFair(routes: seq<RouteToTest>, result: seq<RouteToTest>, round: nat, done: set<Key>)
    requires InRound(routes, result, round, done)
    ensures Fair(routes, result)
  {
    forall a, b {:trigger FairPair(routes, result, a, b)} ensures FairPair(routes, result, a, b) {
      assert Group(result, a) == Group(routes, a)[..Taken(routes, round, done, a)];
      assert Group(result, b) == Group(routes, b)[..Taken(routes, round, done, b)];
    }
  }

  lemma RoundSkips(routes: seq<RouteToTest>, result: seq<RouteToTest>, round: nat, done: set<Key>, key: Key)
    requires InRound(routes, result, round, done) && key !in done && |Group(routes, key)| <= round
    ensures InRound(routes, result, round, done + {key})
  {
    hide Group;
  }

  lemma RoundTakes(routes: seq<RouteToTest>, result: seq<RouteToTest>, round: nat, done: set<Key>, key: Key)
    requires InRound(routes, result, round, done) && key !in done && round < |Group(routes, key)|
    ensures InRound(routes, result + [Group(routes, key)[round]], round, done + {key})
  {
    hide Group, KeyOf, Taken;
    var r := Group(routes, key)[round];
    TakenIs(routes, key, round);
    forall k {:trigger Group(result + [r], k)} ensures Group(result + [r], k) == Group(routes, k)[..Taken(routes, round, done + {key}, k)] {
      GroupAdds(result, r, k);
      assert Group(result, k) == Group(routes, k)[..Taken(routes, round, done, k)];
      TakenNext(routes, round, done, key, k);
      if k == key {
        OneLonger(Group(routes, key), round);
      }
    }
  }

  lemma TakenNext(routes: seq<RouteToTest>, round: nat, done: set<Key>, key: Key, k: Key)
    requires key !in done && round < |Group(routes, key)|
    ensures k != key ==> Taken(routes, round, done + {key}, k) == Taken(routes, round, done, k)
    ensures Taken(routes, round, done, key) == round && Taken(routes, round, done + {key}, key) == round + 1
  {
    hide Group;
  }

  lemma TakenIs(routes: seq<RouteToTest>, key: Key, i: nat)
    requires i < |Group(routes, key)|
    ensures KeyOf(Group(routes, key)[i]) == key
  {
    hide KeyOf;
    GroupMembers(routes, key);
    assert Group(routes, key)[i] in Group(routes, key);
  }

  lemma OneLonger(s: seq<RouteToTest>, i: nat)
    requires i < |s|
    ensures s[..i + 1] == s[..i] + [s[i]]
  {
  }

  // A full round: every key of a non-empty group was done.
  lemma RoundTurns(routes: seq<RouteToTest>, result: seq<RouteToTest>, round: nat, done: set<Key>)
    requires InRound(routes, result, round, done)
    requires forall r {:trigger r in routes} :: r in routes ==> KeyOf(r) in done
    ensures InRound(routes, result, round + 1, {})
  {
    forall key {:trigger Group(result, key)} ensures Group(result, key) == Group(routes, key)[..Taken(routes, round + 1, {}, key)] {
      GroupMembers(routes, key);
      if key !in done && Group(routes, key) != [] {
        assert Group(routes, key)[0] in Group(routes, key);
      }
    }
  }

  lemma RoundStarts(routes: seq<RouteToTest>)
    ensures InRound(routes, [], 0, {}) && AllFair(routes, [])
  {
    forall key ensures Group([], key) == [] { }
    RoundFair(routes, [], 0, {});
  }

  lemma FairGrows(routes: seq<RouteToTest>, result: seq<RouteToTest>, r: RouteToTest)
    requires AllFair(routes, result) && Fair(routes, result + [r])
    ensures AllFair(routes, result + [r])
  {
    hide Fair;
    var more := result + [r];
    forall n {:trigger more[..n]} | 0 <= n <= |more| ensures Fair(routes, more[..n]) {
      if n <= |result| {
        assert more[..n] == result[..n];
      } else {
        assert more[..n] == more;
      }
    }
  }

  lemma RoundSize(routes: seq<RouteToTest>, result: seq<RouteToTest>, round: nat, done: set<Key>)
    requires InRound(routes, result, round, done)
    ensures |result| <= |routes| && (|result| == |routes| ==> multiset(result) == multiset(routes))
  {
    forall key {:trigger Group(result, key)} ensures Group(result, key) <= Group(routes, key) { }
    GroupsWithin(result, routes);
  }

  // Not all routes are out: some group still has one.
  lemma SomeLeft(routes: seq<RouteToTest>, result: seq<RouteToTest>, round: nat) returns (key: Key)
    requires InRound(routes, result, round, {}) && |result| < |routes|
    ensures round < |Group(routes, key)|
  {
    if forall k :: |Group(routes, k)| <= round {
      forall k {:trigger Group(routes, k)} ensures Group(routes, k) <= Group(result, k) {
        assert Group(result, k) == Group(routes, k)[..Taken(routes, round, {}, k)];
      }
      GroupsWithin(routes, result);
    }
    key :| round < |Group(routes, key)|;
  }

  // ---- grouping ----

  function KeySet(keys: seq<Key>): set<Key> {
    set k | k in keys
  }

  ghost predicate Grouped(routes: seq<RouteToTest>, groups: map<Key, seq<RouteToTest>>, keys: seq<Key>) {
    && (forall i, j :: 0 <= i < j < |keys| ==> keys[i] != keys[j])
    && (forall k :: k in keys <==> k in groups)
    && (forall k {:trigger groups[k]} :: k in groups ==> groups[k] == Group(routes, k))
    && (forall k {:trigger Group(routes, k)} :: k !in groups ==> Group(routes, k) == [])
    && (forall r :: r in routes ==> KeyOf(r) in groups)
  }

  lemma GroupedStep(routes: seq<RouteToTest>, groups: map<Key, seq<RouteToTest>>, keys: seq<Key>, r: RouteToTest)
    requires Grouped(routes, groups, keys)
    ensures var key := KeyOf(r);
            Grouped(routes + [r], groups[key := (if key in groups then groups[key] else []) + [r]], if key in groups then keys else keys + [key])
  {
    hide KeyOf;
    var key := KeyOf(r);
    var groups' := groups[key := (if key in groups then groups[key] else []) + [r]];
    assert key !in groups ==> Group(routes, key) == [];
    forall k {:trigger groups'[k]} | k in groups' ensures groups'[k] == Group(routes + [r], k) { GroupAdds(routes, r, k); }
    forall k {:trigger Group(routes + [r], k)} | k !in groups' ensures Group(routes + [r], k) == [] { GroupAdds(routes, r, k); }
  }

  lemma GroupedNone()
    ensures Grouped([], map[], [])
  {
  }

  method GroupRoutes(routes: seq<RouteToTest>) returns (groups: map<Key, seq<RouteToTest>>, keys: seq<Key>)
    ensures Grouped(routes, groups, keys)
  {
    hide Grouped, KeyOf, Group;
    groups, keys := map[], [];
    GroupedNone();
    assert routes[..0] == [];
    for i := 0 to |routes|
      invariant Grouped(routes[..i], groups, keys)
    {
      assert routes[..i + 1] == routes[..i] + [routes[i]];
      GroupedStep(routes[..i], groups, keys, routes[i]);
      var key := KeyOf(routes[i]);
      var members := if key in groups then groups[key] else [];
      if key !in groups {
        keys := keys + [key];
      }
      groups := groups[key := members + [routes[i]]];
    }
    assert routes[..|routes|] == routes;
  }

  // What is left of each group.
  ghost predicate Remaining(routes: seq<RouteToTest>, groups: map<Key, seq<RouteToTest>>, round: nat, done: set<Key>) {
    forall k {:trigger groups[k]} :: k in groups ==> groups[k] == Group(routes, k)[Taken(routes, round, done, k)..]
  }

  lemma Pops(routes: seq<RouteToTest>, groups: map<Key, seq<RouteToTest>>, round: nat, done: set<Key>, key: Key)
    requires Remaining(routes, groups, round, done) && key in groups && key !in done
    ensures groups[key] == [] <==> |Group(routes, key)| <= round
    ensures groups[key] == [] ==> Remaining(routes, groups, round, done + {key})
    ensures groups[key] != [] ==> groups[key][0] == Group(routes, key)[round] && Remaining(routes, groups[key := groups[key][1..]], round, done + {key})
  {
    hide Group;
    assert groups[key] == Group(routes, key)[Taken(routes, round, done, key)..];
  }

  // A permutation of the routes that keeps the order of each group and is fair all along.  `keys`
  // may come in any order.
  method InterleaveRoutes(routes: seq<RouteToTest>) returns (result: seq<RouteToTest>)
    ensures multiset(result) == multiset(routes)
    ensures forall key {:trigger Group(result, key)} :: Group(result, key) == Group(routes, key)
    ensures AllFair(routes, result)
  {
    hide Group, KeyOf, InRound, AllFair, Fair, Remaining, Grouped;
    var groups, keys := GroupRoutes(routes);
    ghost var all := groups;
    result := [];
    ghost var round := 0;
    RoundStarts(routes);
    GroupsFull(routes, groups, keys);
    while |result| < |routes|
      invariant InRound(routes, result, round, {}) && Remaining(routes, groups, round, {}) && AllFair(routes, result)
      invariant groups.Keys == all.Keys && |result| <= |routes|
      decreases |routes| - |result|
    {
      ghost var some := SomeLeft(routes, result, round);
      ghost var start := |result|;
      KeysFacts(routes, all, keys, some);
      ghost var done: set<Key> := {};
      for i := 0 to |keys|
        invariant InRound(routes, result, round, done) && Remaining(routes, groups, round, done) && AllFair(routes, result)
        invariant groups.Keys == all.Keys && done == KeySet(keys[..i])
        invariant |result| >= start && (some in done ==> |result| > start)
      {
        KeysStep(routes, all, keys, i);
        Pops(routes, groups, round, done, keys[i]);
        if groups[keys[i]] == [] {
          RoundSkips(routes, result, round, done, keys[i]);
        } else {
          RoundTakes(routes, result, round, done, keys[i]);
          ghost var r := groups[keys[i]][0];
          RoundFair(routes, result + [r], round, done + {keys[i]});
          FairGrows(routes, result, r);
          result := result + [groups[keys[i]][0]];
          groups := groups[keys[i] := groups[keys[i]][1..]];
        }
        done := done + {keys[i]};
      }
      assert keys[..|keys|] == keys;
      KeysAll(routes, all, keys, groups, round, done);
      RoundTurns(routes, result, round, done);
      round := round + 1;
      RoundSize(routes, result, round, {});
    }
    RoundSize(routes, result, round, {});
    SameGroups(routes, result, round);
  }

  lemma GroupsFull(routes: seq<RouteToTest>, groups: map<Key, seq<RouteToTest>>, keys: seq<Key>)
    requires Grouped(routes, groups, keys)
    ensures Remaining(routes, groups, 0, {})
  {
    hide Group;
  }

  lemma KeysFacts(routes: seq<RouteToTest>, groups: map<Key, seq<RouteToTest>>, keys: seq<Key>, key: Key)
    requires Grouped(routes, groups, keys) && Group(routes, key) != []
    ensures key in keys && KeySet(keys[..0]) == {}
  {
    hide Group;
  }

  lemma KeysStep(routes: seq<RouteToTest>, groups: map<Key, seq<RouteToTest>>, keys: seq<Key>, i: nat)
    requires Grouped(routes, groups, keys) && i < |keys|
    ensures keys[i] in groups && keys[i] !in KeySet(keys[..i])
    ensures KeySet(keys[..i + 1]) == KeySet(keys[..i]) + {keys[i]}
  {
    assert keys[i] in keys;
    assert keys[..i + 1] == keys[..i] + [keys[i]];
    assert forall j :: 0 <= j < i ==> keys[..i][j] == keys[j] && keys[j] != keys[i];
  }

  lemma KeysAll(routes: seq<RouteToTest>, all: map<Key, seq<RouteToTest>>, keys: seq<Key>, groups: map<Key, seq<RouteToTest>>, round: nat,
                done: set<Key>)
    requires Grouped(routes, all, keys) && groups.Keys == all.Keys && Remaining(routes, groups, round, done) && done == KeySet(keys)
    ensures forall r {:trigger r in routes} :: r in routes ==> KeyOf(r) in done
    ensures Remaining(routes, groups, round + 1, {})
  {
    hide Group, KeyOf;
  }

  lemma SameGroups(routes: seq<RouteToTest>, result: seq<RouteToTest>, round: nat)
    requires InRound(routes, result, round, {}) && |result| == |routes|
    ensures forall key {:trigger Group(result, key)} :: Group(result, key) == Group(routes, key)
  {
    RoundSize(routes, result, round, {});
    forall key {:trigger Group(result, key)} ensures Group(result, key) == Group(routes, key) {
      GroupLength(routes, result, key);
    }
  }

  lemma GroupLength(a: seq<RouteToTest>, b: seq<RouteToTest>, key: Key)
    requires multiset(a) == multiset(b) && Group(b, key) <= Group(a, key)
    ensures Group(b, key) == Group(a, key)
  {
    var ga, gb := Group(a, key), Group(b, key);
    forall r ensures multiset(ga)[r] <= multiset(gb)[r] {
      GroupMembers(a, key);
      if KeyOf(r) == key {
        GroupCounts(a, r);
        GroupCounts(b, r);
      } else {
        assert r !in ga;
      }
    }
    assert multiset(ga) <= multiset(gb);
    SubMultiset(multiset(ga), multiset(gb));
    assert |ga| == |multiset(ga)| && |gb| == |multiset(gb)|;
  }
}

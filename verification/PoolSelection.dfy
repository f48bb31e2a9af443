/**
  The four ways a pool picks a member, and what picking does to the members' breakers.
 */
module PoolSelection {
  import opened Options
  import opened Breaker
  import opened RoundRobin

  // Member i supports the network asked for and its breaker lets a connection through.
  predicate Usable(supports: seq<bool>, breakers: seq<Breaker>, i: nat, now: nat)
    requires i < |supports| == |breakers|
  {
    supports[i] && Available(breakers[i], now)
  }

  ghost predicate NoneUsableBut(supports: seq<bool>, breakers: seq<Breaker>, except: Option<nat>, now: nat)
    requires |supports| == |breakers|
  {
    forall i: nat {:trigger Usable(supports, breakers, i, now)} :: i < |supports| && except != Some(i) ==> !Usable(supports, breakers, i, now)
  }

  // Asking a member that is due takes its permit: only these members' breakers moved.
  ghost predicate Took(before: seq<Breaker>, after: seq<Breaker>, a: Option<nat>, b: Option<nat>, now: nat) {
    && |after| == |before|
    && forall i: nat {:trigger after[i]} :: i < |after| ==> after[i] == if a == Some(i) || b == Some(i) then Acquired(before[i], now) else before[i]
  }

  // The k-th member from `start` on, around the ring.
  function Ring(start: nat, n: nat, k: nat): (i: nat)
    requires n > 0
    ensures i < n
  {
    (start + k) % n
  }

  // The ring's members before the k-th are out of the question.
  ghost predicate Passed(supports: seq<bool>, breakers: seq<Breaker>, start: nat, k: nat, except: Option<nat>, now: nat)
    requires 0 < |supports| == |breakers|
  {
    forall j: nat {:trigger Ring(start, |supports|, j)} :: j < k ==>
      except == Some(Ring(start, |supports|, j)) || !Usable(supports, breakers, Ring(start, |supports|, j), now)
  }

  lemma PassedAll(supports: seq<bool>, breakers: seq<Breaker>, start: nat, except: Option<nat>, now: nat)
    requires 0 < |supports| == |breakers| && Passed(supports, breakers, start, |supports|, except, now)
    ensures NoneUsableBut(supports, breakers, except, now)
  {
    forall i: nat {:trigger Usable(supports, breakers, i, now)} | i < |supports| && except != Some(i) ensures !Usable(supports, breakers, i, now) {
      var k := Steps(start, |supports|, i);
      assert Ring(start, |supports|, k) == i;
    }
  }

  // The slots the sequential counter looks at before the k-th pick.
  ghost predicate Skipped(supports: seq<bool>, breakers: seq<Breaker>, c: nat, k: nat, now: nat)
    requires 0 < |supports| == |breakers|
  {
    forall j: nat {:trigger Slot(c, |supports|, j)} :: j < k ==> !Usable(supports, breakers, Slot(c, |supports|, j), now)
  }

  lemma CounterStep(c: nat, n: nat, k: nat)
    requires n > 0
    ensures ((c + k) % Wrap + 1) % Wrap == (c + k + 1) % Wrap && Slot(c, n, k) == ((c + k) % Wrap) % n
  {
  }

  // ---- the balanced pick as a function of its random draws ----

  // The members drawn in turn, and where the ring starts.
  datatype Draws = Draws(members: seq<nat>, start: nat)

  function Tries(n: nat): nat {
    if n * 2 < 8 then n * 2 else 8
  }

  predicate Drawn(n: nat, draws: Draws) {
    |draws.members| == Tries(n) && draws.start < n && forall k :: 0 <= k < |draws.members| ==> draws.members[k] < n
  }

  datatype Two = Two(first: Option<nat>, second: Option<nat>, probing: bool)

  // Random tries for two different members; a first one on its probing permit is taken at once.
  function Tried(supports: seq<bool>, breakers: seq<Breaker>, now: nat, members: seq<nat>, first: Option<nat>): Two
    requires |supports| == |breakers| && forall k :: 0 <= k < |members| ==> members[k] < |supports|
  {
    if members == [] then Two(first, None, false)
    else
      var i, rest := members[0], members[1..];
      if first == Some(i) || !Usable(supports, breakers, i, now) then Tried(supports, breakers, now, rest, first)
      else if first.Some? then Two(first, Some(i), false)
      else if Acquired(breakers[i], now).halfOpen then Two(Some(i), None, true)
      else Tried(supports, breakers, now, rest, Some(i))
  }

  // The rest of one ring for what is missing of two members.
  function Filled(supports: seq<bool>, breakers: seq<Breaker>, now: nat, start: nat, k: nat, first: Option<nat>): Two
    requires 0 < |supports| == |breakers| && k <= |supports|
    decreases |supports| - k
  {
    if k == |supports| then Two(first, None, false)
    else
      var i := Ring(start, |supports|, k);
      if first == Some(i) || !Usable(supports, breakers, i, now) then Filled(supports, breakers, now, start, k + 1, first)
      else if first.Some? then Two(first, Some(i), false)
      else Filled(supports, breakers, now, start, k + 1, Some(i))
  }

  datatype Pick = Pick(member: Option<nat>, loser: Option<nat>)

  function Balanced(supports: seq<bool>, breakers: seq<Breaker>, active: seq<int>, now: nat, draws: Draws): Pick
    requires 0 < |supports| == |breakers| == |active| && Drawn(|supports|, draws)
  {
    var tried := Tried(supports, breakers, now, draws.members, None);
    if tried.probing then Pick(tried.first, None)
    else
      var two := if tried.second.None? then Filled(supports, breakers, now, draws.start, 0, tried.first) else tried;
      if two.second.None? then Pick(two.first, None)
      else if two.first.Some? && two.first.value < |active| && two.second.value < |active| && active[two.second.value] < active[two.first.value]
      then Pick(two.second, two.first)
      else Pick(two.first, two.second)
  }

  class PoolOutbound {
    // Which members support the network asked for; their breakers; their open connections.
    const supports: seq<bool>
    var breakers: seq<Breaker>
    var active: seq<int>
    var rrCounter: nat
    var rotateMember: Option<nat>
    var rotateSince: nat

    constructor (supports: seq<bool>)
      requires 0 < |supports| <= Wrap
      ensures Valid() && this.supports == supports && rotateMember.None?
    {
      this.supports := supports;
      breakers := seq(|supports|, _ => Closed);
      active := seq(|supports|, _ => 0);
      rrCounter := 0;
      rotateMember, rotateSince := None, 0;
    }

    predicate Valid()
      reads this
    {
      && 0 < |supports| <= Wrap && |breakers| == |supports| && |active| == |supports|
      && rrCounter < Wrap
      && (rotateMember.Some? ==> rotateMember.value < |supports|)
    }

    method MemberAvailable(i: nat, now: nat) returns (yes: bool)
      requires Valid() && i < |supports|
      modifies this`breakers
      ensures Valid() && yes == Usable(supports, old(breakers), i, now)
      ensures breakers == if yes then old(breakers)[i := Acquired(old(breakers)[i], now)] else old(breakers)
    {
      if !supports[i] {
        return false;
      }
      yes := Available(breakers[i], now);
      if yes {
        breakers := breakers[i := Acquired(breakers[i], now)];
      }
    }

    method RandomIndex() returns (i: nat)
      requires Valid()
      ensures i < |supports|
    {
      i := *;
      if i >= |supports| {
        i := 0;
      }
    }

    // The first usable member in the order of the counter, which moves on by one per look.
    method SelectSequential(now: nat) returns (member: Option<nat>, ghost looks: nat)
      requires Valid()
      modifies this`breakers, this`rrCounter
      ensures Valid() && looks <= |supports| && rrCounter == (old(rrCounter) + looks) % Wrap
      ensures Took(old(breakers), breakers, member, None, now)
      ensures member.Some? ==>
                && looks > 0 && member.value == Slot(old(rrCounter), |supports|, looks - 1) && Usable(supports, old(breakers), member.value, now)
                && Skipped(supports, old(breakers), old(rrCounter), looks - 1, now)
      ensures member.None? ==> looks == |supports| && Skipped(supports, old(breakers), old(rrCounter), |supports|, now)
    {
      hide Slot, Usable;
      ghost var c, was := rrCounter, breakers;
      var n := |supports|;
      for k := 0 to n
        invariant Valid() && breakers == was && rrCounter == (c + k) % Wrap
        invariant Skipped(supports, was, c, k, now)
      {
        CounterStep(c, |supports|, k);
        var index := rrCounter % n;
        rrCounter := (rrCounter + 1) % Wrap;
        assert index == Slot(c, n, k);
        var available := MemberAvailable(index, now);
        if available {
          return Some(index), k + 1;
        }
      }
      return None, n;
    }

    // The first usable member around the ring.
    method ScanRing(start: nat, now: nat) returns (member: Option<nat>, ghost looks: nat)
      requires Valid()
      modifies this`breakers
      ensures Valid() && Took(old(breakers), breakers, member, None, now)
      ensures member.Some? ==>
                && member.value < |supports| && Usable(supports, old(breakers), member.value, now)
                && looks < |supports| && member.value == Ring(start, |supports|, looks) && Passed(supports, old(breakers), start, looks, None, now)
      ensures member.None? ==> NoneUsableBut(supports, old(breakers), None, now)
    {
      ghost var was := breakers;
      var n := |supports|;
      for k := 0 to n
        invariant Valid() && breakers == was && Passed(supports, was, start, k, None, now)
      {
        var i := Ring(start, n, k);
        var available := MemberAvailable(i, now);
        if available {
          return Some(i), k;
        }
      }
      PassedAll(supports, was, start, None, now);
      return None, n;
    }

    // A few random tries, then a full ring.
    method SelectRandom(now: nat) returns (member: Option<nat>)
      requires Valid()
      modifies this`breakers
      ensures Valid() && Took(old(breakers), breakers, member, None, now)
      ensures member.None? <==> NoneUsableBut(supports, old(breakers), None, now)
      ensures member.Some? ==> member.value < |supports| && Usable(supports, old(breakers), member.value, now)
    {
      for tries := 0 to if |supports| < 8 then |supports| else 8
        invariant Valid() && breakers == old(breakers)
      {
        var i := RandomIndex();
        var available := MemberAvailable(i, now);
        if available {
          return Some(i);
        }
      }
      var start := RandomIndex();
      ghost var looks: nat;
      member, looks := ScanRing(start, now);
    }

    // The current member of the rotation may stay.
    ghost predicate MayStay(now: nat, interval: nat)
      requires Valid()
      reads this
    {
      rotateMember.Some? && now < rotateSince + interval && Usable(supports, breakers, rotateMember.value, now)
    }

    function NextStart(): nat
      reads this
    {
      if rotateMember.Some? then rotateMember.value + 1 else 0
    }

    // Stays with a member for an interval as long as it is usable, then goes to the next usable one.
    method SelectRotate(now: nat, interval: nat) returns (member: Option<nat>, ghost looks: nat)
      requires Valid()
      modifies this`breakers, this`rotateMember, this`rotateSince
      ensures Valid() && Took(old(breakers), breakers, member, None, now)
      ensures member.None? <==> NoneUsableBut(supports, old(breakers), None, now)
      ensures member.Some? ==> member.value < |supports| && Usable(supports, old(breakers), member.value, now) && rotateMember == member
      ensures member.None? ==> rotateMember == old(rotateMember) && rotateSince == old(rotateSince)
      ensures old(MayStay(now, interval)) ==> member == old(rotateMember) && rotateSince == old(rotateSince)
      ensures member.Some? && !old(MayStay(now, interval)) ==>
                && rotateSince == now && looks < |supports| && member.value == Ring(old(NextStart()), |supports|, looks)
                && Passed(supports, old(breakers), old(NextStart()), looks, None, now)
    {
      looks := 0;
      if rotateMember.Some? && now < rotateSince + interval {
        var available := MemberAvailable(rotateMember.value, now);
        if available {
          return rotateMember, 0;
        }
      }
      var start := 0;
      if rotateMember.Some? {
        start := rotateMember.value + 1;
      }
      member, looks := ScanRing(start, now);
      if member.Some? {
        rotateMember := member;
        rotateSince := now;
      }
    }

    method TryTwo(now: nat, members: seq<nat>) returns (first: Option<nat>, second: Option<nat>, probing: bool)
      requires Valid() && forall k :: 0 <= k < |members| ==> members[k] < |supports|
      modifies this`breakers
      ensures Valid() && Took(old(breakers), breakers, first, second, now)
      ensures Two(first, second, probing) == Tried(supports, old(breakers), now, members, None)
      ensures first.None? ==> second.None?
      ensures first.Some? ==> first.value < |supports| && Usable(supports, old(breakers), first.value, now)
      ensures second.Some? ==> second.value < |supports| && second != first && Usable(supports, old(breakers), second.value, now)
      ensures probing ==> first.Some? && second.None? && breakers[first.value].halfOpen
    {
      ghost var was := breakers;
      first, second, probing := None, None, false;
      for tries := 0 to |members|
        invariant Valid() && Took(was, breakers, first, None, now)
        invariant first.Some? ==> first.value < |supports| && Usable(supports, was, first.value, now)
        invariant Tried(supports, was, now, members, None) == Tried(supports, was, now, members[tries..], first)
      {
        var i := members[tries];
        assert members[tries..][1..] == members[tries + 1..];
        if first == Some(i) {
          continue;
        }
        var available := MemberAvailable(i, now);
        if !available {
          continue;
        }
        if first.Some? {
          return first, Some(i), false;
        }
        first := Some(i);
        if breakers[i].halfOpen {
          return first, None, true;
        }
      }
    }

    method FillTwo(start: nat, given: Option<nat>, now: nat, ghost was: seq<Breaker>) returns (first: Option<nat>, second: Option<nat>)
      requires Valid() && |was| == |supports| && Took(was, breakers, given, None, now)
      requires given.Some? ==> given.value < |supports| && Usable(supports, was, given.value, now)
      modifies this`breakers
      ensures Valid() && Took(was, breakers, first, second, now)
      ensures Two(first, second, false) == Filled(supports, was, now, start, 0, given)
      ensures first.None? ==> second.None? && NoneUsableBut(supports, was, None, now)
      ensures first.Some? ==> first.value < |supports| && Usable(supports, was, first.value, now)
      ensures second.Some? ==> second.value < |supports| && second != first && Usable(supports, was, second.value, now)
      ensures second.None? ==> NoneUsableBut(supports, was, first, now)
    {
      first, second := given, None;
      var n := |supports|;
      for k := 0 to n
        invariant Valid() && Took(was, breakers, first, None, now)
        invariant first.Some? ==> first.value < |supports| && Usable(supports, was, first.value, now)
        invariant Passed(supports, was, start, k, first, now)
        invariant Filled(supports, was, now, start, 0, given) == Filled(supports, was, now, start, k, first)
      {
        var i := Ring(start, n, k);
        if first == Some(i) {
          continue;
        }
        var available := MemberAvailable(i, now);
        if !available {
          continue;
        }
        if first.Some? {
          return first, Some(i);
        }
        first := Some(i);
      }
      PassedAll(supports, was, start, first, now);
    }

    // Of two usable members the one with fewer open connections; `loser` is the one passed over.  A
    // permit is lost exactly if the draws leak, and then for good.
    method SelectBalance(now: nat, draws: Draws) returns (member: Option<nat>, ghost loser: Option<nat>)
      requires Valid() && Drawn(|supports|, draws)
      modifies this`breakers
      ensures Valid() && Took(old(breakers), breakers, member, loser, now)
      ensures Pick(member, loser) == Balanced(supports, old(breakers), active, now, draws)
      ensures member.None? <==> NoneUsableBut(supports, old(breakers), None, now)
      ensures member.None? ==> loser.None?
      ensures member.Some? ==> member.value < |supports| && Usable(supports, old(breakers), member.value, now)
      ensures loser.Some? ==>
                && member.Some? && loser.value < |supports| && loser != member
                && Usable(supports, old(breakers), loser.value, now) && active[member.value] <= active[loser.value]
      ensures member.Some? && loser.None? ==> breakers[member.value].halfOpen || NoneUsableBut(supports, old(breakers), member, now)
      ensures Proper(old(breakers)) ==> (Leaked(old(breakers), breakers, member) <==> Leaks(supports, old(breakers), active, now, draws))
      ensures Proper(old(breakers)) ==>
                forall x: nat, later: nat :: x < |breakers| && member != Some(x) && breakers[x] != old(breakers)[x] ==> !Available(breakers[x], later)
    {
      hide Tried, Filled, Usable, Ring, Leaked, Proper, Due, Available, Acquired, Took;
      ghost var was := breakers;
      member, loser := PickTwo(now, draws);
      LeaksIs(supports, was, breakers, active, now, draws, Pick(member, loser));
    }

    // The same before it is asked what the pick has cost.
    method PickTwo(now: nat, draws: Draws) returns (member: Option<nat>, ghost loser: Option<nat>)
      requires Valid() && Drawn(|supports|, draws)
      modifies this`breakers
      ensures Valid() && Took(old(breakers), breakers, member, loser, now)
      ensures Pick(member, loser) == Balanced(supports, old(breakers), active, now, draws)
      ensures member.None? <==> NoneUsableBut(supports, old(breakers), None, now)
      ensures member.None? ==> loser.None?
      ensures member.Some? ==> member.value < |supports| && Usable(supports, old(breakers), member.value, now)
      ensures loser.Some? ==>
                && member.Some? && loser.value < |supports| && loser != member
                && Usable(supports, old(breakers), loser.value, now) && active[member.value] <= active[loser.value]
      ensures member.Some? && loser.None? ==> breakers[member.value].halfOpen || NoneUsableBut(supports, old(breakers), member, now)
    {
      hide Tried, Filled, Usable, Ring;
      ghost var was := breakers;
      var first, second, probing := TryTwo(now, draws.members);
      if probing {
        return first, None;
      }
      if first.None? || second.None? {
        first, second := FillTwo(draws.start, first, now, was);
      }
      if second.None? {
        return first, None;
      }
      if active[second.value] < active[first.value] {
        return second, first;
      }
      return first, second;
    }

    // So many picks in a row while every member is usable.
    method PickMany(count: nat, now: nat) returns (picks: seq<nat>)
      requires Valid() && rrCounter + count <= Wrap && AllOpen(supports, breakers)
      modifies this`breakers, this`rrCounter
      ensures |picks| == count && InTurn(picks, old(rrCounter), |supports|)
      ensures Fair(picks, |supports|)
    {
      hide Slot, Fair, AllOpen, Took;
      ghost var c := rrCounter;
      picks := [];
      for k := 0 to count
        invariant Valid() && |picks| == k && rrCounter == (c + k) % Wrap && AllOpen(supports, breakers) && InTurn(picks, c, |supports|)
      {
        CounterStep(c, |supports|, k);
        assert rrCounter == c + k;
        SlotNow(rrCounter, |supports|);
        FirstLook(supports, breakers, rrCounter, now);
        ghost var looks: nat;
        var member: Option<nat>;
        ghost var was := breakers;
        member, looks := SelectSequential(now);
        TookOpen(supports, was, breakers, member, now);
        picks := picks + [member.value];
      }
      InTurnFair(picks, c, |supports|);
    }
  }

  ghost predicate AllOpen(supports: seq<bool>, breakers: seq<Breaker>) {
    && |supports| == |breakers|
    && (forall i: nat :: i < |supports| ==> supports[i])
    && (forall i: nat :: i < |breakers| ==> !breakers[i].blacklisted)
  }

  // The members one after the other, starting from the counter.
  ghost predicate InTurn(picks: seq<nat>, c: nat, n: nat)
    requires n > 0
  {
    forall k: nat {:trigger picks[k]} :: k < |picks| ==> picks[k] == (c + k) % n
  }

  // Each member gets its share, rounded down or up.
  ghost predicate Fair(picks: seq<nat>, n: nat)
    requires n > 0
  {
    forall i: nat {:trigger multiset(picks)[i]} :: i < n ==> |picks| / n <= multiset(picks)[i] <= (|picks| + n - 1) / n
  }

  lemma TookOpen(supports: seq<bool>, before: seq<Breaker>, after: seq<Breaker>, member: Option<nat>, now: nat)
    requires AllOpen(supports, before) && Took(before, after, member, None, now)
    ensures AllOpen(supports, after)
  {
    forall i: nat | i < |after| ensures !after[i].blacklisted { assert !before[i].blacklisted; }
  }

  lemma SlotNow(c: nat, n: nat)
    requires 0 < n && c < Wrap
    ensures Slot(c, n, 0) == c % n && (c + 1) % Wrap == if c + 1 == Wrap then 0 else c + 1
  {
  }

  // With every member open the scan ends at its first look.
  lemma FirstLook(supports: seq<bool>, breakers: seq<Breaker>, c: nat, now: nat)
    requires 0 < |supports| && AllOpen(supports, breakers)
    ensures forall k: nat :: k > 0 ==> !Skipped(supports, breakers, c, k, now)
  {
    var first := Slot(c, |supports|, 0);
    assert !breakers[first].blacklisted;
    assert Usable(supports, breakers, first, now);
  }

  lemma {:induction false} InTurnCount(picks: seq<nat>, c: nat, n: nat, i: nat)
    requires n > 0 && InTurn(picks, c, n)
    ensures multiset(picks)[i] == Picks(c, n, |picks|, i)
  {
    if picks != [] {
      var init, last := picks[..|picks| - 1], picks[|picks| - 1];
      assert picks == init + [last];
      InTurnCount(init, c, n, i);
      assert last == (c + |init|) % n;
    }
  }

  lemma InTurnFair(picks: seq<nat>, c: nat, n: nat)
    requires n > 0 && InTurn(picks, c, n)
    ensures Fair(picks, n)
  {
    forall i: nat {:trigger multiset(picks)[i]} | i < n ensures |picks| / n <= multiset(picks)[i] <= (|picks| + n - 1) / n {
      InTurnCount(picks, c, n, i);
      PicksFair(c, n, |picks|, i);
    }
  }

  // ---- what the contracts amount to ----

  // The sequential scan finds a usable member whenever there is one, exactly when the counter does
  // not wrap during it or the number of members divides the counter's range.
  lemma SequentialComplete(n: nat, c: nat)
    requires 0 < n <= Wrap && c < Wrap
    ensures c + n <= Wrap || Wrap % n == 0 <==>
            forall supports: seq<bool>, breakers: seq<Breaker>, now: nat ::
              |supports| == |breakers| == n && Skipped(supports, breakers, c, n, now) ==> NoneUsableBut(supports, breakers, None, now)
  {
    CoversExactly(c, n);
    if Covers(c, n) {
      forall supports: seq<bool>, breakers: seq<Breaker>, now: nat | |supports| == |breakers| == n && Skipped(supports, breakers, c, n, now)
        ensures NoneUsableBut(supports, breakers, None, now)
      {
        forall i: nat {:trigger Usable(supports, breakers, i, now)} | i < n ensures !Usable(supports, breakers, i, now) {
          assert Reached(c, n, i);
          var k :| 0 <= k < n && Slot(c, n, k) == i;
        }
      }
    } else {
      var i: nat :| i < n && !Reached(c, n, i);
      var supports := seq(n, j => j == i);
      var breakers := seq(n, j => Closed);
      assert Usable(supports, breakers, i, 0);
      forall j: nat {:trigger Slot(c, n, j)} | j < n ensures !Usable(supports, breakers, Slot(c, n, j), 0) {
        assert Slot(c, n, j) != i;
      }
      assert Skipped(supports, breakers, c, n, 0);
      assert !NoneUsableBut(supports, breakers, None, 0);
    }
  }

  // ---- when a balanced pick leaks ----

  predicate Healthy(supports: seq<bool>, breakers: seq<Breaker>, i: nat, now: nat) {
    i < |supports| == |breakers| && Usable(supports, breakers, i, now) && !breakers[i].blacklisted
  }

  // Blacklisted, past its deadline, with the probing permit to give.
  predicate Due(supports: seq<bool>, breakers: seq<Breaker>, i: nat, now: nat) {
    i < |supports| == |breakers| && Usable(supports, breakers, i, now) && breakers[i].blacklisted
  }

  // Some member other than the one returned has lost its permit.
  ghost predicate Leaked(before: seq<Breaker>, after: seq<Breaker>, member: Option<nat>) {
    exists x: nat :: x < |before| == |after| && member != Some(x) && after[x] != before[x]
  }

  ghost predicate Leaks(supports: seq<bool>, breakers: seq<Breaker>, active: seq<int>, now: nat, draws: Draws)
    requires 0 < |supports| == |breakers| == |active| && Drawn(|supports|, draws)
  {
    var pick := Balanced(supports, breakers, active, now, draws);
    pick.loser.Some? && Due(supports, breakers, pick.loser.value, now)
  }

  // A pick leaks exactly if the member passed over was due, and then nobody gets that member until
  // someone clears it: asking again changes nothing.
  lemma LoserLeaks(supports: seq<bool>, before: seq<Breaker>, after: seq<Breaker>, pick: Pick, now: nat)
    requires |supports| == |before| && Took(before, after, pick.member, pick.loser, now)
    requires pick.loser.Some? ==> pick.loser != pick.member && pick.loser.value < |before| && Usable(supports, before, pick.loser.value, now)
    requires Proper(before)
    ensures Leaked(before, after, pick.member) <==> pick.loser.Some? && Due(supports, before, pick.loser.value, now)
    ensures forall x: nat, later: nat :: x < |before| && pick.member != Some(x) && after[x] != before[x] ==>
              !Available(after[x], later) && Acquired(after[x], later) == after[x]
  {
    if pick.loser.Some? && Due(supports, before, pick.loser.value, now) {
      assert after[pick.loser.value] != before[pick.loser.value];
    }
  }

  lemma LeaksIs(supports: seq<bool>, before: seq<Breaker>, after: seq<Breaker>, active: seq<int>, now: nat, draws: Draws, pick: Pick)
    requires 0 < |supports| == |before| == |active| && Drawn(|supports|, draws) && pick == Balanced(supports, before, active, now, draws)
    requires Took(before, after, pick.member, pick.loser, now)
    requires pick.loser.Some? ==> pick.loser != pick.member && pick.loser.value < |before| && Usable(supports, before, pick.loser.value, now)
    ensures Proper(before) ==> (Leaked(before, after, pick.member) <==> Leaks(supports, before, active, now, draws))
    ensures |after| == |before|
    ensures Proper(before) ==>
              forall x: nat, later: nat :: x < |after| && pick.member != Some(x) && after[x] != before[x] ==> !Available(after[x], later)
  {
    hide Leaked, Balanced, Available, Due, Usable;
    if Proper(before) {
      LoserLeaks(supports, before, after, pick, now);
    }
  }

  // As every trace leaves the breakers.
  ghost predicate Proper(breakers: seq<Breaker>) {
    forall i {:trigger breakers[i]} :: 0 <= i < |breakers| ==> breakers[i].halfOpen ==> breakers[i].blacklisted
  }

  // A healthy member that is no busier than a due one.
  ghost predicate HealthyWins(supports: seq<bool>, breakers: seq<Breaker>, active: seq<int>, now: nat, m: nat, l: nat)
    requires |supports| == |breakers| == |active|
  {
    Healthy(supports, breakers, m, now) && Due(supports, breakers, l, now) && active[m] <= active[l]
  }

  // Two due members, the second the next usable one after the first around the ring.
  ghost predicate DueNext(supports: seq<bool>, breakers: seq<Breaker>, now: nat, i: nat, d: nat)
    requires 0 < |supports| == |breakers|
  {
    && 0 < d < |supports| && Due(supports, breakers, i, now) && Due(supports, breakers, Ring(i, |supports|, d), now)
    && forall e: nat {:trigger Ring(i, |supports|, e)} :: 0 < e < d ==> !Usable(supports, breakers, Ring(i, |supports|, e), now)
  }

  ghost predicate CanLeak(supports: seq<bool>, breakers: seq<Breaker>, active: seq<int>, now: nat)
    requires 0 < |supports| == |breakers| == |active|
  {
    || (exists m: nat, l: nat :: HealthyWins(supports, breakers, active, now, m, l))
    || ((exists u: nat :: u < |supports| && !Usable(supports, breakers, u, now)) && exists i: nat, d: nat :: DueNext(supports, breakers, now, i, d))
  }

  lemma {:induction false} TriedFacts(supports: seq<bool>, breakers: seq<Breaker>, now: nat, members: seq<nat>, first: Option<nat>)
    requires |supports| == |breakers| && Proper(breakers) && forall k :: 0 <= k < |members| ==> members[k] < |supports|
    requires first.Some? ==> Healthy(supports, breakers, first.value, now)
    ensures var two := Tried(supports, breakers, now, members, first);
            && (two.probing ==> two.second.None?)
            && (!two.probing && two.first.Some? ==> Healthy(supports, breakers, two.first.value, now))
            && (two.second.Some? ==>
                  two.first.Some? && two.second != two.first && two.second.value < |supports| && Usable(supports, breakers, two.second.value, now))
            && (two.first.None? ==> two.second.None? && forall k :: 0 <= k < |members| ==> !Usable(supports, breakers, members[k], now))
  {
    if members != [] {
      var i := members[0];
      if first == Some(i) || !Usable(supports, breakers, i, now) {
        TriedFacts(supports, breakers, now, members[1..], first);
        if first.Some? {
          FirstStays(supports, breakers, now, members[1..], first);
        }
        forall k | 0 <= k < |members| && Tried(supports, breakers, now, members, first).first.None? ensures !Usable(supports, breakers, members[k], now) {
          if k > 0 {
            assert members[k] == members[1..][k - 1];
          }
        }
      } else if first.None? && !Acquired(breakers[i], now).halfOpen {
        TriedFacts(supports, breakers, now, members[1..], Some(i));
        FirstStays(supports, breakers, now, members[1..], Some(i));
      }
    }
  }

  lemma {:induction false} FirstStays(supports: seq<bool>, breakers: seq<Breaker>, now: nat, members: seq<nat>, first: Option<nat>)
    requires |supports| == |breakers| && first.Some? && forall k :: 0 <= k < |members| ==> members[k] < |supports|
    ensures Tried(supports, breakers, now, members, first).first == first
  {
    if members != [] {
      FirstStays(supports, breakers, now, members[1..], first);
    }
  }

  lemma {:induction false} FilledSecond(supports: seq<bool>, breakers: seq<Breaker>, now: nat, start: nat, k: nat, first: Option<nat>) returns (q: nat)
    requires 0 < |supports| == |breakers| && k <= |supports| && first.Some?
    ensures var two := Filled(supports, breakers, now, start, k, first);
            && two.first == first && !two.probing
            && (two.second.Some? ==>
                  && k <= q < |supports| && two.second == Some(Ring(start, |supports|, q)) && two.second != first
                  && Usable(supports, breakers, two.second.value, now)
                  && forall e: nat {:trigger Ring(start, |supports|, e)} :: k <= e < q && Some(Ring(start, |supports|, e)) != first ==>
                       !Usable(supports, breakers, Ring(start, |supports|, e), now))
    decreases |supports| - k
  {
    q := k;
    if k < |supports| {
      var i := Ring(start, |supports|, k);
      if first == Some(i) || !Usable(supports, breakers, i, now) {
        q := FilledSecond(supports, breakers, now, start, k + 1, first);
      }
    }
  }

  lemma {:induction false} FilledBoth(supports: seq<bool>, breakers: seq<Breaker>, now: nat, start: nat, k: nat) returns (p: nat, q: nat)
    requires 0 < |supports| == |breakers| && k <= |supports|
    ensures var two := Filled(supports, breakers, now, start, k, None);
            && !two.probing && (two.first.None? ==> two.second.None?)
            && (two.second.Some? ==>
                  && k <= p < q < |supports| && two.first == Some(Ring(start, |supports|, p)) && two.second == Some(Ring(start, |supports|, q))
                  && two.first != two.second
                  && Usable(supports, breakers, two.first.value, now) && Usable(supports, breakers, two.second.value, now)
                  && forall e: nat {:trigger Ring(start, |supports|, e)} :: p < e < q && Some(Ring(start, |supports|, e)) != two.first ==>
                       !Usable(supports, breakers, Ring(start, |supports|, e), now))
    decreases |supports| - k
  {
    p, q := k, k;
    if k < |supports| {
      var i := Ring(start, |supports|, k);
      if !Usable(supports, breakers, i, now) {
        p, q := FilledBoth(supports, breakers, now, start, k + 1);
      } else {
        q := FilledSecond(supports, breakers, now, start, k + 1, Some(i));
      }
    }
  }

  lemma RingFrom(n: nat, start: nat, p: nat, d: nat)
    requires n > 0
    ensures Ring(Ring(start, n, p), n, d) == Ring(start, n, p + d)
  {
    var q := (start + p) / n;
    ModShift(start + p + d, n, -q);
    assert start + p == q * n + Ring(start, n, p);
    assert start + p + d + -q * n == Ring(start, n, p) + d;
  }

  // Within one ring no member comes twice.
  lemma RingOnce(n: nat, start: nat, p: nat, e: nat)
    requires n > 0 && p < e < p + n
    ensures Ring(start, n, p) != Ring(start, n, e)
  {
    if Ring(start, n, p) == Ring(start, n, e) {
      var a, b := (start + p) / n, (start + e) / n;
      assert start + p == a * n + Ring(start, n, p) && start + e == b * n + Ring(start, n, e);
      assert (b - a) * n == e - p;
      Multiples(b - a, n);
    }
  }

  lemma LeakOnlyIf(supports: seq<bool>, breakers: seq<Breaker>, active: seq<int>, now: nat, draws: Draws)
    requires 0 < |supports| == |breakers| == |active| && Drawn(|supports|, draws) && Proper(breakers)
    requires Leaks(supports, breakers, active, now, draws)
    ensures CanLeak(supports, breakers, active, now)
  {
    hide Tried, Filled, Ring;
    var n := |supports|;
    var tried := Tried(supports, breakers, now, draws.members, None);
    TriedFacts(supports, breakers, now, draws.members, None);
    var pick := Balanced(supports, breakers, active, now, draws);
    if tried.first.Some? {
      if tried.second.None? {
        var q := FilledSecond(supports, breakers, now, draws.start, 0, tried.first);
      }
      assert HealthyWins(supports, breakers, active, now, pick.member.value, pick.loser.value);
    } else {
      var p, q := FilledBoth(supports, breakers, now, draws.start, 0);
      assert draws.members[0] < n && !Usable(supports, breakers, draws.members[0], now);
      if !breakers[pick.member.value].blacklisted {
        assert HealthyWins(supports, breakers, active, now, pick.member.value, pick.loser.value);
      } else {
        var i, d := Ring(draws.start, n, p), q - p;
        RingFrom(n, draws.start, p, d);
        forall e: nat {:trigger Ring(i, n, e)} | 0 < e < d ensures !Usable(supports, breakers, Ring(i, n, e), now) {
          RingFrom(n, draws.start, p, e);
          RingOnce(n, draws.start, p, p + e);
        }
        assert DueNext(supports, breakers, now, i, d);
      }
    }
  }

  lemma {:induction false} TriedNone(supports: seq<bool>, breakers: seq<Breaker>, now: nat, members: seq<nat>, u: nat)
    requires |supports| == |breakers| && u < |supports| && !Usable(supports, breakers, u, now)
    requires forall k :: 0 <= k < |members| ==> members[k] == u
    ensures Tried(supports, breakers, now, members, None) == Two(None, None, false)
  {
    if members != [] {
      TriedNone(supports, breakers, now, members[1..], u);
    }
  }

  lemma {:induction false} FilledNext(supports: seq<bool>, breakers: seq<Breaker>, now: nat, i: nat, k: nat, d: nat)
    requires 0 < |supports| == |breakers| && i < |supports| && 0 < k <= d < |supports| && Ring(i, |supports|, d) != i
    requires Usable(supports, breakers, Ring(i, |supports|, d), now)
    requires forall e: nat {:trigger Ring(i, |supports|, e)} :: 0 < e < d ==> !Usable(supports, breakers, Ring(i, |supports|, e), now)
    ensures Filled(supports, breakers, now, i, k, Some(i)) == Two(Some(i), Some(Ring(i, |supports|, d)), false)
    decreases d - k
  {
    hide Ring, Usable;
    if k < d {
      FilledNext(supports, breakers, now, i, k + 1, d);
    }
  }

  // A healthy member, then a due one.
  lemma TriedBoth(supports: seq<bool>, breakers: seq<Breaker>, now: nat, members: seq<nat>, m: nat, l: nat)
    requires |supports| == |breakers| && m < |supports| && l < |supports| && m != l
    requires Usable(supports, breakers, m, now) && Usable(supports, breakers, l, now) && !Acquired(breakers[m], now).halfOpen
    requires |members| >= 2 && members[0] == m && members[1] == l && forall k :: 0 <= k < |members| ==> members[k] < |supports|
    ensures Tried(supports, breakers, now, members, None) == Two(Some(m), Some(l), false)
  {
    hide Usable, Acquired;
    assert members[1..][0] == l;
    assert Tried(supports, breakers, now, members, None) == Tried(supports, breakers, now, members[1..], Some(m));
  }

  lemma LeakByTrying(supports: seq<bool>, breakers: seq<Breaker>, active: seq<int>, now: nat, m: nat, l: nat) returns (draws: Draws)
    requires 0 < |supports| == |breakers| == |active| && Proper(breakers) && HealthyWins(supports, breakers, active, now, m, l)
    ensures Drawn(|supports|, draws) && Leaks(supports, breakers, active, now, draws)
  {
    hide Tried, Filled;
    draws := Draws(seq(Tries(|supports|), k => if k == 0 then m else l), 0);
    TriedBoth(supports, breakers, now, draws.members, m, l);
  }

  lemma RingStart(n: nat, i: nat)
    requires i < n
    ensures Ring(i, n, 0) == i
  {
  }

  lemma FilledFirst(supports: seq<bool>, breakers: seq<Breaker>, now: nat, i: nat)
    requires 0 < |supports| == |breakers| && i < |supports| && Usable(supports, breakers, i, now)
    ensures Filled(supports, breakers, now, i, 0, None) == Filled(supports, breakers, now, i, 1, Some(i))
  {
    hide Usable;
    assert Ring(i, |supports|, 0) == i;
  }

  lemma BalancedFilled(supports: seq<bool>, breakers: seq<Breaker>, active: seq<int>, now: nat, draws: Draws, a: nat, b: nat)
    requires 0 < |supports| == |breakers| == |active| && Drawn(|supports|, draws)
    requires Tried(supports, breakers, now, draws.members, None) == Two(None, None, false)
    requires Filled(supports, breakers, now, draws.start, 0, None) == Two(Some(a), Some(b), false)
    ensures Balanced(supports, breakers, active, now, draws).loser in {Some(a), Some(b)}
  {
    hide Tried, Filled, Drawn;
  }

  lemma LeakByFilling(supports: seq<bool>, breakers: seq<Breaker>, active: seq<int>, now: nat, u: nat, i: nat, d: nat) returns (draws: Draws)
    requires 0 < |supports| == |breakers| == |active| && Proper(breakers)
    requires u < |supports| && !Usable(supports, breakers, u, now) && DueNext(supports, breakers, now, i, d)
    ensures Drawn(|supports|, draws) && Leaks(supports, breakers, active, now, draws)
  {
    hide Tried, Filled, Usable, Ring, Balanced;
    var n := |supports|;
    draws := Draws(seq(Tries(n), k => u), i);
    TriedNone(supports, breakers, now, draws.members, u);
    RingStart(n, i);
    RingOnce(n, i, 0, d);
    FilledNext(supports, breakers, now, i, 1, d);
    FilledFirst(supports, breakers, now, i);
    BalancedFilled(supports, breakers, active, now, draws, i, Ring(i, n, d));
  }

  // Some random draws make a balanced pick take the permit of a member it does not return exactly if
  // a healthy member is no busier than a due one, or all draws can fail and two due members follow
  // one another around the ring.
  lemma LeakExactly(supports: seq<bool>, breakers: seq<Breaker>, active: seq<int>, now: nat)
    requires 0 < |supports| == |breakers| == |active| && Proper(breakers)
    ensures (exists draws :: Drawn(|supports|, draws) && Leaks(supports, breakers, active, now, draws)) <==> CanLeak(supports, breakers, active, now)
  {
    if draws :| Drawn(|supports|, draws) && Leaks(supports, breakers, active, now, draws) {
      LeakOnlyIf(supports, breakers, active, now, draws);
    }
    if CanLeak(supports, breakers, active, now) {
      if m: nat, l: nat :| HealthyWins(supports, breakers, active, now, m, l) {
        var draws := LeakByTrying(supports, breakers, active, now, m, l);
      } else {
        var u: nat :| u < |supports| && !Usable(supports, breakers, u, now);
        var i: nat, d: nat :| DueNext(supports, breakers, now, i, d);
        var draws := LeakByFilling(supports, breakers, active, now, u, i, d);
      }
    }
  }

  // A pick that leaks: the first member is healthy, the second, drawn next, is due.
  method LeakingPick(until: nat, now: nat) returns (member: Option<nat>, before: Breaker, after: Breaker)
    requires until <= now
    ensures member == Some(0) && before == Breaker(0, true, until, false) && Available(before, now)
    ensures forall later: nat :: !Available(after, later)
  {
    var pool := new PoolOutbound([true, true]);
    before := Breaker(0, true, until, false);
    pool.breakers, pool.active := [Closed, before], [0, 0];
    var members := [0, 1, 0, 0];
    TriedBoth(pool.supports, pool.breakers, now, members, 0, 1);
    ghost var loser: Option<nat>;
    member, loser := pool.SelectBalance(now, Draws(members, 0));
    after := pool.breakers[1];
  }
}

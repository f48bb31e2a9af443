/**
  Port assignment: the two sequential allocators of the runtime manager, the two passes of
  configuration loading, and moving one port after a conflict.
 */
module Ports {

  const MaxPort: nat := 65535

  function Base(configured: nat): nat {
    if configured == 0 then 24000 else configured
  }

  lemma BaseIs(configured: nat)
    ensures Base(configured) == if configured != 0 then configured else 24000
  {
  }

  // Ports the allocator may give out: not the hybrid listener's, and already ours or free.
  datatype Setup = Setup(hybrid: bool, listener: nat, mine: set<nat>, free: set<nat>)

  predicate Usable(s: Setup, p: nat) {
    p <= MaxPort && !(s.hybrid && p == s.listener) && (p in s.mine || p in s.free)
  }

  function Positive(ports: seq<nat>): set<nat> {
    set p | p in ports && p > 0
  }

  // ---- the i-th smallest usable port ----

  ghost predicate Increasing(ports: seq<nat>) {
    forall i, j :: 0 <= i < j < |ports| ==> ports[i] < ports[j]
  }

  function Elems(ports: seq<nat>): set<nat> {
    set p | p in ports
  }

  function UsableIn(s: Setup, base: nat, cursor: nat): set<nat> {
    set p: nat | base <= p < cursor && Usable(s, p)
  }

  // The usable ports from `base` on, up to but not including the cursor, in order.
  ghost predicate UsableUpTo(s: Setup, base: nat, cursor: nat, ports: seq<nat>) {
    base <= cursor && Increasing(ports) && Elems(ports) == UsableIn(s, base, cursor)
  }

  // ports[i] is the i-th smallest usable port at or above `base`.
  ghost predicate Smallest(s: Setup, base: nat, ports: seq<nat>) {
    exists cursor: nat :: UsableUpTo(s, base, cursor, ports)
  }

  function UsableFrom(s: Setup, base: nat): set<nat> {
    set p: nat | base <= p <= MaxPort && Usable(s, p)
  }

  lemma SplitIncreasing(ports: seq<nat>)
    requires Increasing(ports) && ports != []
    ensures var init, last := ports[..|ports| - 1], ports[|ports| - 1];
            && Increasing(init) && Elems(ports) == Elems(init) + {last} && last !in Elems(init)
            && forall p :: p in Elems(ports) ==> p <= last
  {
    var init, last := ports[..|ports| - 1], ports[|ports| - 1];
    assert ports == init + [last];
    assert forall i :: 0 <= i < |init| ==> init[i] == ports[i] && ports[i] < last;
  }

  lemma {:induction false} IncreasingSize(ports: seq<nat>)
    requires Increasing(ports)
    ensures |Elems(ports)| == |ports|
  {
    if ports != [] {
      hide Increasing, Elems;
      SplitIncreasing(ports);
      IncreasingSize(ports[..|ports| - 1]);
    }
  }

  lemma SubsetSize(a: set<nat>, b: set<nat>)
    requires a <= b
    ensures |a| <= |b| && (|a| == |b| ==> a == b)
  {
    assert b == a + (b - a);
  }

  // There are as many usable ports up to the cursor as were given out.
  lemma GivenOut(s: Setup, base: nat, cursor: nat, ports: seq<nat>)
    requires UsableUpTo(s, base, cursor, ports)
    ensures |ports| <= |UsableFrom(s, base)| && Smallest(s, base, ports)
    ensures cursor > MaxPort ==> |ports| == |UsableFrom(s, base)|
  {
    IncreasingSize(ports);
    SubsetSize(UsableIn(s, base, cursor), UsableFrom(s, base));
    if cursor > MaxPort {
      assert UsableIn(s, base, cursor) == UsableFrom(s, base);
    }
  }

  lemma {:induction false} SameIncreasing(a: seq<nat>, b: seq<nat>)
    requires Increasing(a) && Increasing(b) && Elems(a) == Elems(b)
    ensures a == b
  {
    hide *;
    IncreasingSize(a);
    IncreasingSize(b);
    if a != [] {
      SplitIncreasing(a);
      SplitIncreasing(b);
      var a', b', x, y := a[..|a| - 1], b[..|b| - 1], a[|a| - 1], b[|b| - 1];
      assert x in Elems(a') + {x} && y in Elems(b') + {y};
      assert x <= y && y <= x;
      assert Elems(a') == Elems(a) - {x} && Elems(b') == Elems(b) - {x};
      SameIncreasing(a', b');
      Snoc(a);
      Snoc(b);
    }
  }

  lemma Snoc(ports: seq<nat>)
    requires ports != []
    ensures ports == ports[..|ports| - 1] + [ports[|ports| - 1]]
  {
  }

  // The assignment is determined by the setup, the base and the number of nodes: the two
  // allocators agree.
  lemma SmallestUnique(s: Setup, base: nat, a: seq<nat>, b: seq<nat>)
    requires Smallest(s, base, a) && Smallest(s, base, b) && |a| == |b|
    ensures a == b
  {
    var c: nat :| UsableUpTo(s, base, c, a);
    var d: nat :| UsableUpTo(s, base, d, b);
    IncreasingSize(a);
    IncreasingSize(b);
    if c <= d {
      SubsetSize(UsableIn(s, base, c), UsableIn(s, base, d));
    } else {
      SubsetSize(UsableIn(s, base, d), UsableIn(s, base, c));
    }
    SameIncreasing(a, b);
  }

  // What being the i-th smallest means for one port.
  lemma SmallestMeaning(s: Setup, base: nat, ports: seq<nat>, i: nat)
    requires Smallest(s, base, ports) && i < |ports|
    ensures Usable(s, ports[i]) && |set p: nat | base <= p < ports[i] && Usable(s, p)| == i
  {
    var c: nat :| UsableUpTo(s, base, c, ports);
    assert ports[i] in Elems(ports);
    var head := ports[..i];
    forall p ensures p in Elems(head) <==> p in UsableIn(s, base, ports[i]) {
      assert p in Elems(ports) <==> p in UsableIn(s, base, c);
      if p in UsableIn(s, base, ports[i]) {
        var j :| 0 <= j < |ports| && ports[j] == p;
        assert head[j] == p;
      }
    }
    IncreasingSize(head);
    assert Elems(head) == UsableIn(s, base, ports[i]);
  }

  // ---- the cursor moves on ----

  lemma CursorSkips(s: Setup, base: nat, cursor: nat, ports: seq<nat>)
    requires UsableUpTo(s, base, cursor, ports) && !Usable(s, cursor)
    ensures UsableUpTo(s, base, cursor + 1, ports)
  {
    assert UsableIn(s, base, cursor + 1) == UsableIn(s, base, cursor);
  }

  lemma CursorTakes(s: Setup, base: nat, cursor: nat, ports: seq<nat>)
    requires UsableUpTo(s, base, cursor, ports) && Usable(s, cursor)
    ensures UsableUpTo(s, base, cursor + 1, ports + [cursor])
  {
    assert UsableIn(s, base, cursor + 1) == UsableIn(s, base, cursor) + {cursor};
    assert Elems(ports + [cursor]) == Elems(ports) + {cursor};
    forall i | 0 <= i < |ports| ensures ports[i] < cursor { assert ports[i] in Elems(ports); }
  }

  lemma NothingYet(s: Setup, base: nat)
    ensures UsableUpTo(s, base, base, []) && Elems([]) == {}
  {
  }

  lemma GivenBelow(s: Setup, base: nat, cursor: nat, ports: seq<nat>)
    requires UsableUpTo(s, base, cursor, ports)
    ensures cursor !in Elems(ports)
  {
  }

  lemma ElemsAdd(ports: seq<nat>, p: nat)
    ensures Elems(ports + [p]) == Elems(ports) + {p}
  {
  }

  lemma UsableIs(s: Setup, p: nat)
    ensures Usable(s, p) <==> p <= MaxPort && !(s.hybrid && p == s.listener) && (p in s.mine || p in s.free)
  {
  }

  // ---- rebuildMultiPortAssignments ----

  method MineOf(ports: array<nat>) returns (mine: set<nat>)
    ensures mine == Positive(ports[..])
  {
    mine := {};
    for i := 0 to ports.Length
      invariant mine == Positive(ports[..i])
    {
      assert ports[..i + 1] == ports[..i] + [ports[i]];
      if ports[i] > 0 {
        mine := mine + {ports[i]};
      }
    }
    assert ports[..ports.Length] == ports[..];
  }

  // Nodes that got a port before a failure keep it.
  method RebuildMultiPortAssignments(ports: array<nat>, hybrid: bool, listener: nat, basePort: nat, free: set<nat>)
    returns (ok: bool, ghost done: nat)
    modifies ports
    ensures done <= ports.Length && ports[done..] == old(ports[..])[done..]
    ensures Smallest(Setup(hybrid, listener, Positive(old(ports[..])), free), if basePort != 0 then basePort else 24000, ports[..done])
    ensures ok <==> ports.Length <= |UsableFrom(Setup(hybrid, listener, Positive(old(ports[..])), free), Base(basePort))|
    ensures ok ==> done == ports.Length
  {
    hide *;
    BaseIs(basePort);
    var base := Base(basePort);
    var mine := MineOf(ports);
    var s := Setup(hybrid, listener, mine, free);
    ghost var was := ports[..];
    var used: set<nat> := if hybrid && listener > 0 then {listener} else {};
    var port: nat := base;
    NothingYet(s, base);
    for i := 0 to ports.Length
      invariant UsableUpTo(s, base, port, ports[..i]) && ports[i..] == was[i..]
      invariant used == Elems(ports[..i]) + if hybrid && listener > 0 then {listener} else {}
    {
      port := NextPort(s, base, port, ports[..i], used);
      if port > MaxPort {
        GivenOut(s, base, port, ports[..i]);
        return false, i;
      }
      CursorTakes(s, base, port, ports[..i]);
      ElemsAdd(ports[..i], port);
      ports[i] := port;
      assert ports[..i + 1] == ports[..i] + [port] && ports[i + 1..] == was[i + 1..];
      used := used + {port};
      port := port + 1;
    }
    assert ports[..ports.Length] == ports[..];
    GivenOut(s, base, port, ports[..]);
    return true, ports.Length;
  }

  // The inner loop: past ports in use, the hybrid listener's and ports others hold.
  method NextPort(s: Setup, ghost base: nat, from: nat, ghost given: seq<nat>, used: set<nat>) returns (port: nat)
    requires UsableUpTo(s, base, from, given)
    requires used == Elems(given) + if s.hybrid && s.listener > 0 then {s.listener} else {}
    ensures UsableUpTo(s, base, port, given) && (port > MaxPort || Usable(s, port))
  {
    hide *;
    port := from;
    while true
      invariant UsableUpTo(s, base, port, given)
      decreases MaxPort + 1 - port
    {
      UsableIs(s, port);
      GivenBelow(s, base, port, given);
      if port > MaxPort {
        return;
      }
      if port in used {
        CursorSkips(s, base, port, given);
        port := port + 1;
        continue;
      }
      if s.hybrid && port == s.listener {
        CursorSkips(s, base, port, given);
        port := port + 1;
        continue;
      }
      if port !in s.mine && port !in s.free {
        CursorSkips(s, base, port, given);
        port := port + 1;
        continue;
      }
      return;
    }
  }

  // ---- assignSequentialPortsLocked ----

  // A node for which no port is left is left without one.
  method AssignSequentialPorts(ports: array<nat>, hybrid: bool, listener: nat, basePort: nat, free: set<nat>)
    returns (ok: bool, ghost done: nat)
    modifies ports
    ensures done <= ports.Length
    ensures Smallest(Setup(hybrid, listener, Positive(old(ports[..])), free), if basePort != 0 then basePort else 24000, ports[..done])
    ensures ok <==> ports.Length <= |UsableFrom(Setup(hybrid, listener, Positive(old(ports[..])), free), Base(basePort))|
    ensures ok ==> done == ports.Length
    ensures !ok ==> done < ports.Length && ports[done] == 0 && ports[done + 1..] == old(ports[..])[done + 1..]
  {
    hide *;
    BaseIs(basePort);
    var base := Base(basePort);
    var mine := MineOf(ports);
    ghost var s, was := Setup(hybrid, listener, mine, free), ports[..];
    var taken: set<nat> := {};
    var port: nat := base;
    NothingYet(s, base);
    for i := 0 to ports.Length
      invariant UsableUpTo(s, base, port, ports[..i]) && ports[i..] == was[i..] && taken == Elems(ports[..i])
    {
      var found := false;
      ghost var given := ports[..i];
      ports[i] := 0;
      assert ports[..i] == given && ports[i + 1..] == was[i + 1..];
      while port <= MaxPort
        invariant UsableUpTo(s, base, port, given) && ports[..i] == given && ports[i] == 0
        invariant ports[i + 1..] == was[i + 1..]
        decreases MaxPort + 1 - port
      {
        UsableIs(s, port);
        GivenBelow(s, base, port, given);
        if port in taken || (hybrid && port == listener) || (port !in mine && port !in free) {
          CursorSkips(s, base, port, given);
          port := port + 1;
          continue;
        }
        CursorTakes(s, base, port, given);
        ElemsAdd(given, port);
        ports[i] := port;
        assert ports[..i] == given && ports[i + 1..] == was[i + 1..];
        taken := taken + {port};
        port := port + 1;
        found := true;
        break;
      }
      if !found {
        GivenOut(s, base, port, given);
        return false, i;
      }
      assert ports[..i + 1] == given + [ports[i]];
    }
    assert ports[..ports.Length] == ports[..];
    GivenOut(s, base, port, ports[..]);
    return true, ports.Length;
  }

  // ---- moving one port after a conflict ----

  function Sum(ports: seq<nat>): nat {
    if ports == [] then 0 else Sum(ports[..|ports| - 1]) + ports[|ports| - 1]
  }

  ghost predicate DistinctPorts(ports: seq<nat>) {
    forall i, j :: 0 <= i < j < |ports| ==> ports[i] != ports[j]
  }

  lemma {:induction false} SumChanges(ports: seq<nat>, i: nat, p: nat)
    requires i < |ports|
    ensures Sum(ports[i := p]) == Sum(ports) - ports[i] + p
  {
    var last := |ports| - 1;
    if i == last {
      assert ports[i := p][..last] == ports[..last];
    } else {
      assert ports[i := p][..last] == ports[..last][i := p];
      SumChanges(ports[..last], i, p);
    }
  }

  lemma {:induction false} SumBound(ports: seq<nat>)
    requires forall i :: 0 <= i < |ports| ==> ports[i] <= MaxPort
    ensures Sum(ports) <= |ports| * MaxPort
  {
    if ports != [] {
      var last := |ports| - 1;
      SumBound(ports[..last]);
      assert |ports| * MaxPort == last * MaxPort + MaxPort;
    }
  }

  // The first node on the port moves to the next port that nobody uses and that is free.
  ghost predicate Moved(before: seq<nat>, after: seq<nat>, conflict: nat, hybrid: bool, listener: nat, free: set<nat>, i: nat) {
    && i < |before| && before[i] == conflict && conflict !in before[..i]
    && |after| == |before| && after == before[i := after[i]]
    && conflict < after[i] <= MaxPort && after[i] in free && after[i] !in before && !(hybrid && after[i] == listener)
    && forall p: nat {:trigger p in free} :: conflict < p < after[i] ==> p !in free || p in before || (hybrid && p == listener)
  }

  method ReassignConflictingPort(ports: array<nat>, conflict: nat, hybrid: bool, listener: nat, free: set<nat>)
    returns (moved: bool, ghost index: nat)
    modifies ports
    ensures moved ==> Moved(old(ports[..]), ports[..], conflict, hybrid, listener, free, index)
    ensures !moved ==> ports[..] == old(ports[..])
    ensures !moved ==> conflict == 0 || conflict !in old(ports[..])
                       || forall p: nat {:trigger p in free} :: conflict < p <= MaxPort ==> p !in free || p in old(ports[..]) || (hybrid && p == listener)
  {
    index := 0;
    if conflict == 0 {
      return false, 0;
    }
    var used: set<nat> := if hybrid then {listener} else {};
    for i := 0 to ports.Length
      invariant ports[..] == old(ports[..])
      invariant used == Elems(ports[..i]) + if hybrid then {listener} else {}
    {
      assert ports[..i + 1] == ports[..i] + [ports[i]];
      ElemsAdd(ports[..i], ports[i]);
      used := used + {ports[i]};
    }
    assert ports[..ports.Length] == ports[..];
    for i := 0 to ports.Length
      invariant ports[..] == old(ports[..]) && conflict !in ports[..i]
    {
      if ports[i] == conflict {
        var candidate := conflict + 1;
        while candidate <= MaxPort
          invariant conflict < candidate && ports[..] == old(ports[..])
          invariant forall p: nat {:trigger p in free} :: conflict < p < candidate ==> p !in free || p in used
          decreases MaxPort + 1 - candidate
        {
          if candidate in used || candidate !in free {
            candidate := candidate + 1;
            continue;
          }
          ports[i] := candidate;
          return true, i;
        }
        return false, i;
      }
      assert ports[..i + 1] == ports[..i] + [ports[i]];
    }
    moved := false;
  }

  // A move keeps distinct ports distinct, in range and off the listener, and raises their sum: a
  // run of moves is finite whatever the retry limit.
  lemma MovedKeeps(before: seq<nat>, after: seq<nat>, conflict: nat, hybrid: bool, listener: nat, free: set<nat>, i: nat)
    requires Moved(before, after, conflict, hybrid, listener, free, i)
    ensures Sum(before) < Sum(after)
    ensures DistinctPorts(before) ==> DistinctPorts(after)
    ensures (forall k :: 0 <= k < |before| ==> 0 < before[k] <= MaxPort) ==>
              (forall k :: 0 <= k < |after| ==> 0 < after[k] <= MaxPort) && Sum(after) <= |after| * MaxPort
    ensures hybrid && listener !in before ==> listener !in after
  {
    SumChanges(before, i, after[i]);
    forall k | 0 <= k < |after| && k != i ensures after[k] == before[k] && after[k] in before { }
    if forall k :: 0 <= k < |before| ==> 0 < before[k] <= MaxPort {
      SumBound(after);
    }
  }

  // ---- the two passes of NormalizeWithPortMap ----

  // The port a node asks for: its own, else the one the map has for it.
  function Wanted(own: seq<nat>, mapped: seq<nat>, i: nat): nat
    requires i < |own| == |mapped|
  {
    if own[i] > 0 then own[i] else mapped[i]
  }

  // A node keeps the port it asks for unless the port is not free, the hybrid listener's or kept by
  // an earlier node; 0 is for none.
  function KeptPort(own: seq<nat>, mapped: seq<nat>, kept: seq<nat>, hybrid: bool, listener: nat, free: set<nat>): nat
    requires |kept| < |own| == |mapped|
  {
    var want := Wanted(own, mapped, |kept|);
    if want > 0 && want in free && want !in kept && !(hybrid && want == listener) then want else 0
  }

  ghost predicate FirstPass(own: seq<nat>, mapped: seq<nat>, kept: seq<nat>, hybrid: bool, listener: nat, free: set<nat>) {
    && |kept| <= |own| == |mapped|
    && forall i: nat {:trigger kept[i]} :: i < |kept| ==> kept[i] == KeptPort(own, mapped, kept[..i], hybrid, listener, free)
  }

  // The new ports, in order, of the nodes without a kept one.
  function Fresh(kept: seq<nat>, final: seq<nat>): seq<nat>
    requires |final| == |kept|
  {
    if kept == [] then []
    else
      var last := |kept| - 1;
      var rest := Fresh(kept[..last], final[..last]);
      if kept[last] == 0 then rest + [final[last]] else rest
  }

  // Free ports that no node kept.
  function SecondSetup(kept: seq<nat>, hybrid: bool, listener: nat, free: set<nat>): Setup {
    Setup(hybrid, listener, {}, set p | p in free && p !in kept)
  }

  ghost predicate SecondPass(kept: seq<nat>, final: seq<nat>, hybrid: bool, listener: nat, free: set<nat>, base: nat) {
    && |final| == |kept|
    && (forall i: nat {:trigger kept[i]} :: i < |kept| && kept[i] > 0 ==> final[i] == kept[i])
    && Smallest(SecondSetup(kept, hybrid, listener, free), base, Fresh(kept, final))
  }

  function Zeros(kept: seq<nat>): nat {
    if kept == [] then 0 else Zeros(kept[..|kept| - 1]) + if kept[|kept| - 1] == 0 then 1 else 0
  }

  lemma {:induction false} FreshAt(kept: seq<nat>, final: seq<nat>, i: nat)
    requires |final| == |kept| && i < |kept|
    ensures |Fresh(kept, final)| == Zeros(kept) && Zeros(kept[..i]) <= Zeros(kept)
    ensures kept[i] == 0 ==> Zeros(kept[..i]) < Zeros(kept) && Fresh(kept, final)[Zeros(kept[..i])] == final[i]
  {
    var last := |kept| - 1;
    if i < last {
      FreshAt(kept[..last], final[..last], i);
      assert kept[..last][..i] == kept[..i];
    } else {
      FreshSize(kept[..last], final[..last]);
    }
  }

  lemma {:induction false} FreshSize(kept: seq<nat>, final: seq<nat>)
    requires |final| == |kept|
    ensures |Fresh(kept, final)| == Zeros(kept)
  {
    if kept != [] {
      FreshSize(kept[..|kept| - 1], final[..|kept| - 1]);
    }
  }

  lemma {:induction false} ZerosGrow(kept: seq<nat>, i: nat, j: nat)
    requires i < j <= |kept| && kept[i] == 0
    ensures Zeros(kept[..i]) < Zeros(kept[..j])
  {
    assert kept[..j][..j - 1] == kept[..j - 1];
    if i < j - 1 {
      ZerosGrow(kept, i, j - 1);
    }
  }

  // A new port: usable, and larger than the new ports of earlier nodes.
  lemma NewPort(kept: seq<nat>, final: seq<nat>, hybrid: bool, listener: nat, free: set<nat>, base: nat, i: nat, j: nat)
    requires SecondPass(kept, final, hybrid, listener, free, base) && i < |kept| && kept[i] == 0
    ensures base <= final[i] && Usable(SecondSetup(kept, hybrid, listener, free), final[i])
    ensures i < j < |kept| && kept[j] == 0 ==> final[i] < final[j]
  {
    var news := Fresh(kept, final);
    FreshAt(kept, final, i);
    var c: nat :| UsableUpTo(SecondSetup(kept, hybrid, listener, free), base, c, news);
    assert final[i] in Elems(news);
    if i < j < |kept| && kept[j] == 0 {
      FreshAt(kept, final, j);
      ZerosGrow(kept, i, j);
    }
  }

  // After loading, every port is not 0, free and off the hybrid listener, and no other node has it; a
  // node has the port it asked for if it could keep it.
  lemma NormalizedPorts(own: seq<nat>, mapped: seq<nat>, kept: seq<nat>, final: seq<nat>, hybrid: bool, listener: nat, free: set<nat>,
                        base: nat, i: nat)
    requires FirstPass(own, mapped, kept, hybrid, listener, free) && |kept| == |own|
    requires SecondPass(kept, final, hybrid, listener, free, base) && base > 0 && i < |own|
    ensures final[i] > 0 && final[i] in free && (hybrid ==> final[i] != listener)
    ensures forall j :: 0 <= j < |own| && i != j ==> final[i] != final[j]
    ensures KeptPort(own, mapped, kept[..i], hybrid, listener, free) > 0 ==> final[i] == Wanted(own, mapped, i)
  {
    assert kept[i] == KeptPort(own, mapped, kept[..i], hybrid, listener, free);
    if kept[i] == 0 {
      NewPort(kept, final, hybrid, listener, free, base, i, i);
    }
    forall j | 0 <= j < |own| && i != j ensures final[i] != final[j] {
      if i < j {
        PortsApart(own, mapped, kept, final, hybrid, listener, free, base, i, j);
      } else {
        PortsApart(own, mapped, kept, final, hybrid, listener, free, base, j, i);
      }
    }
  }

  lemma PortsApart(own: seq<nat>, mapped: seq<nat>, kept: seq<nat>, final: seq<nat>, hybrid: bool, listener: nat, free: set<nat>,
                   base: nat, i: nat, j: nat)
    requires FirstPass(own, mapped, kept, hybrid, listener, free) && |kept| == |own|
    requires SecondPass(kept, final, hybrid, listener, free, base) && base > 0 && i < j < |own|
    ensures final[i] != final[j]
  {
    assert kept[j] == KeptPort(own, mapped, kept[..j], hybrid, listener, free);
    if kept[i] == 0 {
      NewPort(kept, final, hybrid, listener, free, base, i, j);
    }
    if kept[j] == 0 {
      NewPort(kept, final, hybrid, listener, free, base, j, j);
    }
    assert kept[i] in kept[..j] && kept[i] in kept && kept[j] in kept;
  }

  lemma FirstPassNone(own: seq<nat>, mapped: seq<nat>, hybrid: bool, listener: nat, free: set<nat>)
    requires |own| == |mapped|
    ensures FirstPass(own, mapped, [], hybrid, listener, free) && Positive([]) == {}
  {
  }

  lemma FirstPassAdds(own: seq<nat>, mapped: seq<nat>, kept: seq<nat>, hybrid: bool, listener: nat, free: set<nat>)
    requires FirstPass(own, mapped, kept, hybrid, listener, free) && |kept| < |own|
    ensures FirstPass(own, mapped, kept + [KeptPort(own, mapped, kept, hybrid, listener, free)], hybrid, listener, free)
  {
    var all := kept + [KeptPort(own, mapped, kept, hybrid, listener, free)];
    forall i: nat {:trigger all[i]} | i < |all| ensures all[i] == KeptPort(own, mapped, all[..i], hybrid, listener, free) {
      assert all[..i] == kept[..i];
      assert i == |kept| ==> kept[..i] == kept;
    }
  }

  lemma PositiveAdds(ports: seq<nat>, p: nat)
    ensures Positive(ports + [p]) == Positive(ports) + if p > 0 then {p} else {}
  {
  }

  lemma KeptIs(own: seq<nat>, mapped: seq<nat>, kept: seq<nat>, hybrid: bool, listener: nat, free: set<nat>, used: set<nat>)
    requires |kept| < |own| == |mapped| && used == Positive(kept) + if hybrid then {listener} else {}
    ensures var want := Wanted(own, mapped, |kept|);
            KeptPort(own, mapped, kept, hybrid, listener, free) ==
            if want == 0 || want in used || (hybrid && want == listener) || want !in free then 0 else want
  {
  }

  // First pass: ports that can stay; stops at a node that is not valid.
  method KeepPorts(ports: array<nat>, mapped: seq<nat>, valid: seq<bool>, hybrid: bool, listener: nat, free: set<nat>)
    returns (ok: bool, used: set<nat>)
    requires |mapped| == |valid| == ports.Length
    modifies ports
    ensures ok <==> forall i :: 0 <= i < |valid| ==> valid[i]
    ensures ok ==> FirstPass(old(ports[..]), mapped, ports[..], hybrid, listener, free)
    ensures ok ==> used == Positive(ports[..]) + if hybrid then {listener} else {}
  {
    hide FirstPass, KeptPort, Positive;
    ghost var own := ports[..];
    used := if hybrid then {listener} else {};
    FirstPassNone(own, mapped, hybrid, listener, free);
    assert ports[..0] == [];
    for i := 0 to ports.Length
      invariant FirstPass(own, mapped, ports[..i], hybrid, listener, free) && ports[i..] == own[i..]
      invariant used == Positive(ports[..i]) + if hybrid then {listener} else {}
      invariant forall k :: 0 <= k < i ==> valid[k]
    {
      if !valid[i] {
        return false, used;
      }
      ghost var kept := ports[..i];
      assert ports[i] == own[i];
      FirstPassAdds(own, mapped, kept, hybrid, listener, free);
      KeptIs(own, mapped, kept, hybrid, listener, free, used);
      PositiveAdds(kept, KeptPort(own, mapped, kept, hybrid, listener, free));
      if ports[i] > 0 {
        if ports[i] in used || (hybrid && ports[i] == listener) || ports[i] !in free {
          ports[i] := 0;
        } else {
          used := used + {ports[i]};
        }
      } else if mapped[i] > 0 {
        if mapped[i] in used || (hybrid && mapped[i] == listener) || mapped[i] !in free {
          ports[i] := 0;
        } else {
          ports[i] := mapped[i];
          used := used + {mapped[i]};
        }
      }
      assert ports[..i + 1] == kept + [ports[i]] && ports[i + 1..] == own[i + 1..];
    }
    assert ports[..ports.Length] == ports[..];
    ok := true;
  }

  lemma FreshAdds(kept: seq<nat>, final: seq<nat>, k: nat, p: nat)
    requires |final| == |kept|
    ensures Fresh(kept + [k], final + [p]) == if k == 0 then Fresh(kept, final) + [p] else Fresh(kept, final)
  {
    assert (kept + [k])[..|kept|] == kept && (final + [p])[..|kept|] == final;
  }

  lemma SecondIs(kept: seq<nat>, hybrid: bool, listener: nat, free: set<nat>, used: set<nat>, given: seq<nat>, p: nat)
    requires used == Positive(kept) + (if hybrid then {listener} else {}) + Elems(given) && p > 0 && p !in Elems(given)
    ensures Usable(SecondSetup(kept, hybrid, listener, free), p) <==> p <= MaxPort && p !in used && p in free
  {
  }

  // Second pass: the free ports in order for the nodes without one.
  method AssignMissing(ports: array<nat>, given: set<nat>, hybrid: bool, listener: nat, basePort: nat, free: set<nat>) returns (ok: bool)
    requires given == Positive(ports[..]) + if hybrid then {listener} else {}
    modifies ports
    ensures ok ==> SecondPass(old(ports[..]), ports[..], hybrid, listener, free, Base(basePort))
    ensures ok <==> Zeros(old(ports[..])) <= |UsableFrom(SecondSetup(old(ports[..]), hybrid, listener, free), Base(basePort))|
  {
    ghost var kept := ports[..];
    var base := Base(basePort);
    hide *;
    ghost var s := SecondSetup(kept, hybrid, listener, free);
    var used := given;
    var cursor: nat := base;
    BasePositive(basePort);
    NothingYet(s, base);
    ghost var news: seq<nat>, final: seq<nat> := [], [];
    DoneNone(kept);
    assert ports[..] == [] + kept[0..];
    for i := 0 to ports.Length
      invariant cursor > 0 && UsableUpTo(s, base, cursor, news) && Done(kept, i, final, news)
      invariant ports[..] == final + kept[i..] && |final| == i
      invariant used == given + Elems(news)
    {
      assert ports[i] == kept[i];
      if ports[i] == 0 {
        cursor := NextFree(kept, hybrid, listener, free, used, base, cursor, news);
        if cursor > MaxPort {
          GivenOut(s, base, cursor, news);
          DoneTooMany(kept, i, final, news);
          return false;
        }
        CursorTakes(s, base, cursor, news);
        ElemsAdd(news, cursor);
        DoneNew(kept, i, final, news, cursor);
        Shift(final, kept, i, cursor);
        ghost var before := ports[..];
        ports[i] := cursor;
        assert ports[..] == before[i := cursor];
        final := final + [cursor];
        news := news + [cursor];
        used := used + {cursor};
        cursor := cursor + 1;
      } else {
        DoneKept(kept, i, final, news);
        ShiftSame(final, kept, i);
        final := final + [kept[i]];
      }
    }
    AllFinal(final, kept);
    GivenOut(s, base, cursor, news);
    DoneAll(kept, final, news, hybrid, listener, free, base);
    ok := true;
  }

  // The first i nodes have their final ports, the new ones among them being `news`.
  ghost predicate Done(kept: seq<nat>, i: nat, final: seq<nat>, news: seq<nat>) {
    && i == |final| <= |kept|
    && news == Fresh(kept[..i], final)
    && forall k: nat {:trigger final[k]} :: k < i && kept[k] > 0 ==> final[k] == kept[k]
  }

  lemma Shift(final: seq<nat>, kept: seq<nat>, i: nat, p: nat)
    requires |final| == i < |kept|
    ensures (final + kept[i..])[i := p] == (final + [p]) + kept[i + 1..]
  {
  }

  lemma ShiftSame(final: seq<nat>, kept: seq<nat>, i: nat)
    requires |final| == i < |kept|
    ensures final + kept[i..] == (final + [kept[i]]) + kept[i + 1..]
  {
  }

  lemma AllFinal(final: seq<nat>, kept: seq<nat>)
    requires |final| == |kept|
    ensures final + kept[|kept|..] == final
  {
  }

  lemma DoneNone(kept: seq<nat>)
    ensures Done(kept, 0, [], [])
  {
  }

  lemma DoneNew(kept: seq<nat>, i: nat, final: seq<nat>, news: seq<nat>, p: nat)
    requires Done(kept, i, final, news) && i < |kept| && kept[i] == 0
    ensures Done(kept, i + 1, final + [p], news + [p])
  {
    assert kept[..i + 1] == kept[..i] + [kept[i]];
    FreshAdds(kept[..i], final, 0, p);
  }

  lemma DoneKept(kept: seq<nat>, i: nat, final: seq<nat>, news: seq<nat>)
    requires Done(kept, i, final, news) && i < |kept| && kept[i] != 0
    ensures Done(kept, i + 1, final + [kept[i]], news)
  {
    assert kept[..i + 1] == kept[..i] + [kept[i]];
    FreshAdds(kept[..i], final, kept[i], kept[i]);
  }

  // A node without a port is left over.
  lemma DoneTooMany(kept: seq<nat>, i: nat, final: seq<nat>, news: seq<nat>)
    requires Done(kept, i, final, news) && i < |kept| && kept[i] == 0
    ensures |news| < Zeros(kept)
  {
    FreshSize(kept[..i], final);
    ZerosGrow(kept, i, |kept|);
    assert kept[..|kept|] == kept;
  }

  lemma DoneAll(kept: seq<nat>, final: seq<nat>, news: seq<nat>, hybrid: bool, listener: nat, free: set<nat>, base: nat)
    requires Done(kept, |kept|, final, news) && Smallest(SecondSetup(kept, hybrid, listener, free), base, news)
    ensures SecondPass(kept, final, hybrid, listener, free, base) && |news| == Zeros(kept)
  {
    assert kept[..|kept|] == kept;
    FreshSize(kept, final);
  }

  method NextFree(ghost kept: seq<nat>, hybrid: bool, listener: nat, free: set<nat>, used: set<nat>, ghost base: nat, from: nat,
                  ghost news: seq<nat>)
    returns (cursor: nat)
    requires from > 0 && UsableUpTo(SecondSetup(kept, hybrid, listener, free), base, from, news)
    requires used == Positive(kept) + (if hybrid then {listener} else {}) + Elems(news)
    ensures cursor > 0 && UsableUpTo(SecondSetup(kept, hybrid, listener, free), base, cursor, news)
    ensures cursor > MaxPort || Usable(SecondSetup(kept, hybrid, listener, free), cursor)
  {
    hide *;
    ghost var s := SecondSetup(kept, hybrid, listener, free);
    cursor := from;
    while cursor <= MaxPort
      invariant cursor > 0 && UsableUpTo(s, base, cursor, news)
      decreases MaxPort + 1 - cursor
    {
      GivenBelow(s, base, cursor, news);
      SecondIs(kept, hybrid, listener, free, used, news, cursor);
      if cursor !in used && cursor in free {
        return;
      }
      CursorSkips(s, base, cursor, news);
      cursor := cursor + 1;
    }
  }

  lemma BasePositive(basePort: nat)
    ensures Base(basePort) > 0
  {
  }

  // Outside the multi-port modes nodes without a port are numbered from the base, unchecked.
  method NumberMissing(ports: array<nat>, basePort: nat) returns (ok: bool)
    modifies ports
    ensures ok ==> forall i: nat {:trigger ports[i]} :: i < ports.Length ==>
              ports[i] == if old(ports[i]) > 0 then old(ports[i]) else Base(basePort) + Zeros(old(ports[..i]))
    ensures ok <==> Zeros(old(ports[..])) == 0 || Base(basePort) + Zeros(old(ports[..])) <= MaxPort + 1
  {
    ghost var was := ports[..];
    var cursor: nat := Base(basePort);
    for i := 0 to ports.Length
      invariant cursor == Base(basePort) + Zeros(was[..i]) && ports[i..] == was[i..]
      invariant Zeros(was[..i]) == 0 || cursor <= MaxPort + 1
      invariant forall k: nat {:trigger ports[k]} :: k < i ==> ports[k] == if was[k] > 0 then was[k] else Base(basePort) + Zeros(was[..k])
    {
      assert was[..i + 1][..i] == was[..i] && ports[i] == was[i];
      if ports[i] == 0 {
        if cursor > MaxPort {
          ZerosGrow(was, i, |was|);
          assert was[..|was|] == was;
          return false;
        }
        ports[i] := cursor;
        cursor := cursor + 1;
      }
      assert ports[i + 1..] == was[i + 1..];
    }
    assert was[..|was|] == was;
    ok := true;
  }

  // Ports as loaded: in the multi-port modes both passes, else plain numbering.
  method NormalizePorts(ports: array<nat>, mapped: seq<nat>, valid: seq<bool>, multi: bool, hybrid: bool, listener: nat, basePort: nat,
                        free: set<nat>)
    returns (ok: bool, ghost kept: seq<nat>)
    requires |mapped| == |valid| == ports.Length && (hybrid ==> multi)
    modifies ports
    ensures ok ==> forall i :: 0 <= i < |valid| ==> valid[i]
    ensures multi && ok ==>
              && FirstPass(old(ports[..]), mapped, kept, hybrid, listener, free) && |kept| == ports.Length
              && SecondPass(kept, ports[..], hybrid, listener, free, Base(basePort))
    ensures multi && !ok && (forall i :: 0 <= i < |valid| ==> valid[i]) ==>
              && FirstPass(old(ports[..]), mapped, kept, hybrid, listener, free) && |kept| == ports.Length
              && Zeros(kept) > |UsableFrom(SecondSetup(kept, hybrid, listener, free), Base(basePort))|
    ensures !multi && ok ==> forall i: nat {:trigger ports[i]} :: i < ports.Length ==>
              ports[i] == if old(ports[i]) > 0 then old(ports[i]) else Base(basePort) + Zeros(old(ports[..i]))
  {
    hide *;
    kept := [];
    if multi {
      var used: set<nat>;
      ok, used := KeepPorts(ports, mapped, valid, hybrid, listener, free);
      if ok {
        kept := ports[..];
        ok := AssignMissing(ports, used, hybrid, listener, basePort, free);
      }
    } else {
      ok := AllValid(valid);
      if ok {
        ok := NumberMissing(ports, basePort);
      }
    }
  }

  method AllValid(valid: seq<bool>) returns (ok: bool)
    ensures ok <==> forall i :: 0 <= i < |valid| ==> valid[i]
  {
    for i := 0 to |valid|
      invariant forall k :: 0 <= k < i ==> valid[k]
    {
      if !valid[i] {
        return false;
      }
    }
    ok := true;
  }
}

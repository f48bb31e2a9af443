/**
  Probing a batch of nodes in up to three rounds: a node leaves with its first success, its first
  permanent error, or the result of its third round.
 */
module ProbeRounds {
  import opened Orders

  datatype TestResult = Passed(latency: nat) | Transient(error: string) | Permanent(error: string) | Canceled

  datatype Event = Event(id: string, result: TestResult)

  datatype Progress = Progress(round: nat, completed: nat, total: nat, concurrency: int)

  const Rounds: nat := 3

  predicate Retryable(result: TestResult) {
    result.Transient?
  }

  // What the probe of a node would say in each round.
  type Outcomes = (nat, string) -> TestResult

  function Outcome(outcomes: Outcomes, id: string): TestResult {
    if !Retryable(outcomes(1, id)) then outcomes(1, id)
    else if !Retryable(outcomes(2, id)) then outcomes(2, id)
    else outcomes(3, id)
  }

  // ---- concurrency ----

  function Halved(base: int, times: nat): int
    requires base >= 1
  {
    if times == 0 then base
    else
      var b := Halved(base, times - 1);
      if b > 2 then (if b / 2 < 2 then 2 else b / 2) else b
  }

  lemma {:induction false} HalvedBounds(base: int, times: nat)
    requires base >= 1
    ensures 1 <= Halved(base, times) <= base && (base >= 2 ==> Halved(base, times) >= 2)
    ensures times > 0 ==> Halved(base, times) <= Halved(base, times - 1)
  {
    if times > 0 {
      HalvedBounds(base, times - 1);
    }
  }

  function Pow2(times: nat): nat {
    if times == 0 then 1 else 2 * Pow2(times - 1)
  }

  lemma {:induction false} Pow2Positive(times: nat)
    ensures Pow2(times) >= 1
  {
    if times > 0 { Pow2Positive(times - 1); }
  }

  lemma SmallMultiple(d: int, k: int)
    requires -d < d * k < d
    ensures k == 0
  {
    assert k >= 1 ==> d * k >= d;
    assert k <= -1 ==> d * k <= -d;
  }

  lemma Quotient(a: int, d: int, h: int, rest: int)
    requires a == d * h + rest && 0 <= rest < d
    ensures a / d == h
  {
    var q := a / d;
    assert a == d * q + a % d;
    assert d * (q - h) == d * q - d * h;
    SmallMultiple(d, q - h);
  }

  // A quotient halved is the quotient by the double.
  lemma HalfOf(base: int, p: int)
    requires p >= 1
    ensures base / p / 2 == base / (2 * p)
  {
    var q, r := base / p, base % p;
    HalfSplit(p, q, q / 2, q % 2);
    RestSmall(p, q % 2, r);
    Quotient(base, 2 * p, q / 2, p * (q % 2) + r);
  }

  lemma HalfSplit(p: int, q: int, h: int, b: int)
    requires q == 2 * h + b
    ensures p * q == (2 * p) * h + p * b
  {
    assert p * q == p * (2 * h) + p * b;
    assert p * (2 * h) == (2 * p) * h;
  }

  lemma RestSmall(p: int, b: int, r: int)
    requires 0 <= r < p && (b == 0 || b == 1)
    ensures 0 <= p * b + r < 2 * p
  {
  }

  // Halved that often, rounded down, but not below two.
  lemma {:induction false} HalvedExactly(base: int, times: nat)
    requires base >= 1
    ensures Pow2(times) >= 1
    ensures Halved(base, times) == if base <= 2 then base else if base / Pow2(times) < 2 then 2 else base / Pow2(times)
  {
    Pow2Positive(times);
    if times > 0 {
      HalvedExactly(base, times - 1);
      HalfOf(base, Pow2(times - 1));
    }
  }

  method ProbeRoundConcurrency(configured: int, round: nat, pending: nat) returns (concurrency: int)
    requires round >= 1
    ensures var base := if configured < 1 then 1 else configured;
            && concurrency == (if pending >= base * 4 then base else Halved(base, round - 1)) && 1 <= concurrency <= base
            && Pow2(round - 1) >= 1
            && (pending < base * 4 && base > 2 ==>
                  concurrency == if base / Pow2(round - 1) < 2 then 2 else base / Pow2(round - 1))
  {
    var base := if configured < 1 then 1 else configured;
    HalvedExactly(base, round - 1);
    if pending >= base * 4 {
      return base;
    }
    concurrency := base;
    for i := 1 to round
      invariant concurrency == Halved(base, i - 1)
    {
      HalvedBounds(base, i - 1);
      if concurrency > 2 {
        concurrency := if concurrency / 2 < 2 then 2 else concurrency / 2;
      }
    }
    HalvedBounds(base, round - 1);
  }

  // ---- the rounds ----

  function Ids(events: seq<Event>): set<string> {
    set e | e in events :: e.id
  }

  // Every node is pending or has left with its outcome, once.
  ghost predicate Accounted(nodes: set<string>, events: seq<Event>, pending: set<string>, outcomes: Outcomes) {
    && |Ids(events)| == |events| && Ids(events) !! pending && Ids(events) + pending == nodes
    && forall e {:trigger e in events} :: e in events ==> e.result == Outcome(outcomes, e.id)
  }

  // The node has not left in an earlier round.
  ghost predicate StillPending(id: string, round: nat, outcomes: Outcomes) {
    forall r {:trigger outcomes(r, id)} :: 1 <= r < round ==> Retryable(outcomes(r, id))
  }

  lemma Leaves(nodes: set<string>, events: seq<Event>, pending: set<string>, outcomes: Outcomes, id: string, round: nat)
    requires Accounted(nodes, events, pending, outcomes) && id in pending && 1 <= round <= 3
    requires StillPending(id, round, outcomes) && (round == 3 || !Retryable(outcomes(round, id)))
    ensures Accounted(nodes, events + [Event(id, outcomes(round, id))], pending - {id}, outcomes)
  {
    var e := Event(id, outcomes(round, id));
    IdsAdd(events, e);
    OutcomeAt(id, round, outcomes);
    hide Ids, Outcome;
    forall x {:trigger x in events + [e]} | x in events + [e] ensures x.result == Outcome(outcomes, x.id) {
      assert x in events || x == e;
    }
  }

  lemma IdsAdd(events: seq<Event>, e: Event)
    ensures Ids(events + [e]) == Ids(events) + {e.id}
  {
    assert forall x :: x in events + [e] <==> x in events || x == e;
  }

  lemma OutcomeAt(id: string, round: nat, outcomes: Outcomes)
    requires 1 <= round <= 3 && StillPending(id, round, outcomes) && (round == 3 || !Retryable(outcomes(round, id)))
    ensures outcomes(round, id) == Outcome(outcomes, id)
  {
    assert round > 1 ==> Retryable(outcomes(1, id));
    assert round > 2 ==> Retryable(outcomes(2, id));
  }

  // A round after its first i results.
  ghost predicate RoundAt(nodes: set<string>, order: seq<string>, i: nat, round: nat, events: seq<Event>, next: set<string>, outcomes: Outcomes) {
    && i <= |order| && next <= Members(order[..i])
    && Accounted(nodes, events, (Members(order) - Members(order[..i])) + next, outcomes)
    && (round == 3 ==> next == {})
    && (forall id {:trigger id in next} :: id in next ==> StillPending(id, round + 1, outcomes))
  }

  lemma RoundStarts(nodes: set<string>, order: seq<string>, round: nat, events: seq<Event>, outcomes: Outcomes)
    requires Accounted(nodes, events, Members(order), outcomes)
    ensures RoundAt(nodes, order, 0, round, events, {}, outcomes)
  {
    assert order[..0] == [];
    assert (Members(order) - Members(order[..0])) + {} == Members(order);
  }

  lemma RoundEnds(nodes: set<string>, order: seq<string>, round: nat, events: seq<Event>, next: set<string>, outcomes: Outcomes)
    requires RoundAt(nodes, order, |order|, round, events, next, outcomes)
    ensures Accounted(nodes, events, next, outcomes) && next <= Members(order) && (round == 3 ==> next == {})
    ensures forall id {:trigger id in next} :: id in next ==> StillPending(id, round + 1, outcomes)
  {
    assert order[..|order|] == order;
    assert (Members(order) - Members(order)) + next == next;
  }

  lemma RoundAdds(nodes: set<string>, order: seq<string>, i: nat, round: nat, events: seq<Event>, next: set<string>, outcomes: Outcomes)
    requires NoRepeats(order) && i < |order| && 1 <= round <= 3 && RoundAt(nodes, order, i, round, events, next, outcomes)
    requires forall id {:trigger id in order} :: id in order ==> StillPending(id, round, outcomes)
    ensures if round < 3 && Retryable(outcomes(round, order[i])) then RoundAt(nodes, order, i + 1, round, events, next + {order[i]}, outcomes)
            else RoundAt(nodes, order, i + 1, round, events + [Event(order[i], outcomes(round, order[i]))], next, outcomes)
  {
    hide Accounted, Outcome, Members;
    var id := order[i];
    RoundStep(order, i);
    SetMoves(Members(order), Members(order[..i]), next, id);
    if round < 3 && Retryable(outcomes(round, id)) {
      PendingOn(id, round, outcomes);
    } else {
      Leaves(nodes, events, (Members(order) - Members(order[..i])) + next, outcomes, id, round);
    }
  }

  lemma SetMoves(all: set<string>, done: set<string>, next: set<string>, id: string)
    requires id in all && id !in done && next <= done
    ensures id in (all - done) + next
    ensures (all - (done + {id})) + (next + {id}) == (all - done) + next
    ensures (all - (done + {id})) + next == ((all - done) + next) - {id}
  {
  }

  // The reports of a round so far: the first before any result, and then ever more of them.
  ghost predicate Reported(reports: seq<Progress>, round: nat, completed: nat, total: nat, concurrency: int) {
    && |reports| > 0 && reports[0] == Progress(round, 0, total, concurrency)
    && (forall i, j :: 0 <= i < j < |reports| ==> reports[i].completed < reports[j].completed)
    && reports[|reports| - 1].completed <= completed
    && (completed == total ==> reports[|reports| - 1].completed == total)
  }

  method Report(given: seq<Progress>, round: nat, completed: nat, total: nat, concurrency: int) returns (reports: seq<Progress>)
    requires 0 < completed <= total && Reported(given, round, completed - 1, total, concurrency)
    ensures Reported(reports, round, completed, total, concurrency)
  {
    var step := if (total + 19) / 20 < 1 then 1 else (total + 19) / 20;
    reports := given;
    if completed == total || completed % step == 0 {
      reports := reports + [Progress(round, completed, total, concurrency)];
    }
  }

  // A round: all pending nodes are probed; `order` is the order in which they end.
  method RunRound(nodes: set<string>, given: seq<Event>, order: seq<string>, round: nat, concurrency: int, outcomes: Outcomes)
    returns (events: seq<Event>, next: set<string>, reports: seq<Progress>)
    requires 1 <= round <= 3 && NoRepeats(order) && Accounted(nodes, given, Members(order), outcomes)
    requires forall id {:trigger id in order} :: id in order ==> StillPending(id, round, outcomes)
    ensures Accounted(nodes, events, next, outcomes) && next <= Members(order) && (round == 3 ==> next == {})
    ensures forall id {:trigger id in next} :: id in next ==> StillPending(id, round + 1, outcomes)
    ensures Reported(reports, round, |order|, |order|, concurrency)
  {
    hide Accounted, RoundAt, Reported;
    reports := [Progress(round, 0, |order|, concurrency)];
    FirstReport(round, |order|, concurrency);
    events, next := given, {};
    RoundStarts(nodes, order, round, events, outcomes);
    for i := 0 to |order|
      invariant RoundAt(nodes, order, i, round, events, next, outcomes) && Reported(reports, round, i, |order|, concurrency)
    {
      RoundAdds(nodes, order, i, round, events, next, outcomes);
      reports := Report(reports, round, i + 1, |order|, concurrency);
      var id := order[i];
      var result := outcomes(round, id);
      if round < Rounds && Retryable(result) {
        next := next + {id};
        continue;
      }
      events := events + [Event(id, result)];
    }
    RoundEnds(nodes, order, round, events, next, outcomes);
  }

  lemma FirstReport(round: nat, total: nat, concurrency: int)
    ensures Reported([Progress(round, 0, total, concurrency)], round, 0, total, concurrency)
  {
  }

  lemma RoundStep(order: seq<string>, i: nat)
    requires NoRepeats(order) && i < |order|
    ensures Members(order[..i + 1]) == Members(order[..i]) + {order[i]} && order[i] !in Members(order[..i]) && order[i] in order
    ensures order[i] in Members(order)
  {
    assert order[..i + 1] == order[..i] + [order[i]];
    assert forall j :: 0 <= j < i ==> order[..i][j] == order[j] && order[j] != order[i];
  }

  lemma PendingOn(id: string, round: nat, outcomes: Outcomes)
    requires StillPending(id, round, outcomes) && Retryable(outcomes(round, id))
    ensures StillPending(id, round + 1, outcomes)
  {
  }

  // Without cancellation and with distinct ids: one event per node, with the node's outcome.
  method ProbeBatch(nodes: seq<string>, configured: int, outcomes: Outcomes) returns (events: seq<Event>)
    requires NoRepeats(nodes)
    ensures |events| == |nodes| && Ids(events) == Members(nodes)
    ensures forall e {:trigger e in events} :: e in events ==>
              var first, second, third := outcomes(1, e.id), outcomes(2, e.id), outcomes(3, e.id);
              && (first.Passed? || first.Permanent? || first.Canceled? ==> e.result == first)
              && (first.Transient? && (second.Passed? || second.Permanent? || second.Canceled?) ==> e.result == second)
              && (first.Transient? && second.Transient? ==> e.result == third)
  {
    events := [];
    var pending := Members(nodes);
    assert Ids([]) == {};
    for round := 1 to Rounds + 1
      invariant Accounted(Members(nodes), events, pending, outcomes)
      invariant forall id {:trigger id in pending} :: id in pending ==> StillPending(id, round, outcomes)
      invariant round == 4 ==> pending == {}
    {
      if pending == {} {
        continue;
      }
      var concurrency := ProbeRoundConcurrency(configured, round, |pending|);
      var order := AnyOrder(pending);
      assert Members(order) == pending;
      var reports: seq<Progress>;
      events, pending, reports := RunRound(Members(nodes), events, order, round, concurrency, outcomes);
    }
    assert Ids(events) == Members(nodes);
    MembersSize(nodes);
  }

  lemma {:induction false} MembersSize(nodes: seq<string>)
    requires NoRepeats(nodes)
    ensures |Members(nodes)| == |nodes|
  {
    if nodes != [] {
      var init, last := nodes[..|nodes| - 1], nodes[|nodes| - 1];
      assert nodes == init + [last];
      MembersSize(init);
      assert Members(nodes) == Members(init) + {last} && last !in Members(init);
    }
  }
}

/**
  The promises of the probe scheduler, each about every reachable state.
 */
module SchedulerTheorems {
  import opened SchedulerModel
  import opened SchedulerInvariant
  import opened SchedulerSteps
  import opened SchedulerSafety

  // Deduplication: two workers never run tasks of the same key.
  lemma OneExecutionPerKey(s: State, w: nat, v: nat)
    requires Reachable(s) && w != v
    requires Worker(w) in s.pcs && RunsTask(s.pcs[Worker(w)])
    requires Worker(v) in s.pcs && RunsTask(s.pcs[Worker(v)])
    ensures s.pcs[Worker(w)].task in s.table.heap && s.pcs[Worker(v)].task in s.table.heap
    ensures s.table.heap[s.pcs[Worker(w)].task].key != s.table.heap[s.pcs[Worker(v)].task].key
  {
    ReachableInv(s);
    if Over(s) {
      OverPositions(s);
    } else {
      assert AgentOk(s, Worker(w)) && AgentOk(s, Worker(v));
      assert TaskOk(s, s.pcs[Worker(w)].task) && TaskOk(s, s.pcs[Worker(v)].task);
    }
  }

  // Every waiter gets at most one answer, and a result only from an execution that began after
  // its Submit did (`stamp` counts the executions begun when Submit was called).
  lemma AnswersAreFresh(s: State, c: Call)
    requires Reachable(s) && c in s.sent
    ensures |s.sent[c]| <= 1 && c in s.requests
    ensures s.sent[c] != [] && s.sent[c][0].Completed? ==> s.requests[c].stamp < s.sent[c][0].exec <= s.executions
  {
    ReachableInv(s);
    assert AnswerOk(s, c) || WaiterOk(s, c);
  }

  // Submit has taken the waiter in.
  ghost predicate TakenIn(s: State, c: Call) {
    Submitter(c) in s.pcs && (s.pcs[Submitter(c)] in {Accepted, GivingBack} || s.pcs[Submitter(c)].Enqueueing?)
  }

  // Before shutdown no waiter is lost: it is answered or its task is still registered.
  lemma WaitersAreKept(s: State, c: Call)
    requires Reachable(s) && s.phase == Open && TakenIn(s, c) && c !in s.dead
    ensures c in s.sent && (s.sent[c] != [] || Attached(s.table, c))
  {
    ReachableInv(s);
    assert AgentOk(s, Submitter(c)) && WaiterOk(s, c);
    match s.place[c] {
      case AtTask(t) => assert s.table.heap[t].key in s.table.tasks;
      case AtNext(t) => assert s.table.heap[t].key in s.table.tasks;
      case InFlight(a) => assert s.table.heap[s.pcs[a].task].key in s.table.tasks;
      case _ =>
    }
  }

  lemma {:induction false} TasksFitUses(keys: set<Key>, tb: Table, uses: set<SlotUse>)
    requires forall k {:trigger k in keys} :: k in keys ==>
               k in tb.tasks && tb.tasks[k] in tb.heap && tb.heap[tb.tasks[k]].key == k && OfTask(tb.tasks[k]) in uses
    ensures |keys| <= |uses|
    decreases |keys|
  {
    if keys != {} {
      var k :| k in keys;
      TasksFitUses(keys - {k}, tb, uses - {OfTask(tb.tasks[k])});
    }
  }

  lemma {:induction false} QueueFitsUses(q: seq<TaskId>, uses: set<SlotUse>)
    requires NoRepeats(q) && forall t {:trigger t in q} :: t in q ==> OfTask(t) in uses
    ensures |q| <= |uses|
    decreases |q|
  {
    if q != [] {
      assert q[0] in q;
      forall t {:trigger t in q[1..]} | t in q[1..] ensures OfTask(t) in uses - {OfTask(q[0])} { assert t in q; }
      QueueFitsUses(q[1..], uses - {OfTask(q[0])});
    }
  }

  lemma QueuedTask(s: State, t: TaskId)
    requires Running(s) && (t in s.high || t in s.normal)
    ensures t in s.table.heap && s.table.Registered(t) && !s.table.heap[t].running && OfTask(t) in s.uses
    ensures !(t in s.high && t in s.normal)
  {
    assert TaskOk(s, t);
  }

  // The counters and the slots agree with the task table whenever the lock is free.
  lemma AccountingIsExact(s: State)
    requires Reachable(s) && s.phase != Stopped
    ensures s.table.queued == |WaitingKeys(s.table)| && s.table.running == |RunningKeys(s.table)|
    ensures s.table.queued + s.table.running == |s.table.tasks.Keys| <= s.slots <= s.capacity
  {
    ReachableInv(s);
    KeyedFrom(s);
    assert WaitingKeys(s.table) + RunningKeys(s.table) == s.table.tasks.Keys;
    assert WaitingKeys(s.table) * RunningKeys(s.table) == {};
    forall k {:trigger s.table.tasks[k]} | k in s.table.tasks ensures OfTask(s.table.tasks[k]) in s.uses {
      assert KeyOk(s, k) && TaskOk(s, s.table.tasks[k]);
    }
    TasksFitUses(s.table.tasks.Keys, s.table, s.uses);
  }

  // A task is in at most one queue, once, and only while it is registered and not running.
  lemma QueuesAreExact(s: State)
    requires Reachable(s) && s.phase != Stopped
    ensures NoRepeats(s.high + s.normal)
    ensures forall t :: t in s.high + s.normal ==> s.table.Registered(t) && !s.table.heap[t].running
  {
    ReachableInv(s);
    forall t | t in s.high + s.normal
      ensures s.table.Registered(t) && !s.table.heap[t].running && !(t in s.high && t in s.normal)
    {
      QueuedTask(s, t);
    }
    var q := s.high + s.normal;
    forall i, j | 0 <= i < j < |q| ensures q[i] != q[j] {
      if i < |s.high| <= j { assert q[i] in s.high && q[j] in s.normal && q[i] in q; }
    }
  }

  // A task about to be queued always finds room: the send in `enqueue` never waits.
  lemma EnqueueNeverBlocks(s: State, a: Agent)
    requires Reachable(s) && s.phase != Stopped && a in s.pcs && s.pcs[a].Enqueueing?
    ensures Enabled(s, Enqueue(a))
  {
    ReachableInv(s);
    assert AgentOk(s, a);
    var t := s.pcs[a].task;
    assert TaskOk(s, t);
    var q := QueueOf(s, t);
    forall u {:trigger u in q + [t]} | u in q + [t] ensures OfTask(u) in s.uses { if u != t { QueuedTask(s, u); } }
    QueueFitsUses(q + [t], s.uses);
  }

  // The task a worker takes from a queue is always registered and not running.
  lemma StaleGuardNeverFires(s: State, w: nat)
    requires Reachable(s) && Worker(w) in s.pcs && s.pcs[Worker(w)].Starting?
    ensures s.pcs[Worker(w)].task in s.table.heap && !Stale(s, s.pcs[Worker(w)].task)
  {
    ReachableInv(s);
    if Over(s) {
      OverPositions(s);
    } else {
      assert AgentOk(s, Worker(w));
      assert TaskOk(s, s.pcs[Worker(w)].task);
    }
  }

  // The waiter next in line has an empty channel: delivering its result never waits.
  lemma DeliveryNeverBlocks(s: State, a: Agent, c: Call)
    requires Reachable(s) && a in s.pcs && c in Served(s.pcs[a])
    ensures c in s.sent && s.sent[c] == []
  {
    ReachableInv(s);
    if Over(s) {
      OverPositions(s);
    } else {
      assert AgentOk(s, a);
      assert WaiterOk(s, c);
    }
  }

  // A slot is never leaked: the slots taken are one for each registered task and one for each
  // goroutine about to register a task or to return it.
  lemma SlotsAreOwned(s: State, u: SlotUse)
    requires Reachable(s) && s.phase != Stopped
    ensures s.slots == |s.uses|
    ensures u in s.uses <==> match u case OfTask(t) => s.table.Registered(t) case OfAgent(a) => a in s.pcs && HoldsSlot(s.pcs[a])
  {
    ReachableInv(s);
    if u in s.uses {
      assert UseOk(s, u);
    }
    match u {
      case OfTask(t) => if t in s.table.heap { assert TaskOk(s, t); }
      case OfAgent(a) => if a in s.pcs { assert AgentOk(s, a); }
    }
  }
}

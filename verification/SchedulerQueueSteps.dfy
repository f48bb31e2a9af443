/**
  The queue steps: a task enters a queue, leaves it, or is withdrawn from the table.
 */
module SchedulerQueueSteps {
  import opened SchedulerModel
  import opened SchedulerInvariant
  import opened SchedulerSteps

  // ---- into a queue ----

  ghost predicate MayEnqueue(s: State, a: Agent) {
    a in s.pcs && s.pcs[a].Enqueueing? && s.pcs[a].task in s.table.heap
  }

  lemma EnqueueTask(s: State, s': State, a: Agent, t: TaskId)
    requires MayEnqueue(s, a) && s' == EnqueueStep(s, a) && t in s'.table.heap
    requires TaskOk(s, t) && AgentOk(s, a)
    ensures TaskOk(s', t)
  {
    if t != s.pcs[a].task { TaskFrame(s, s', t); }
  }

  lemma EnqueueQueues(s: State, s': State, a: Agent)
    requires QueuesOk(s) && MayEnqueue(s, a) && s' == EnqueueStep(s, a)
    requires AgentOk(s, a) && TaskOk(s, s.pcs[a].task)
    ensures QueuesOk(s')
  {
  }

  lemma EnqueueTasks(s: State, s': State, a: Agent)
    requires Running(s) && MayEnqueue(s, a) && s' == EnqueueStep(s, a)
    ensures Tasks(s')
  {
    assert AgentOk(s, a) && TaskOk(s, s.pcs[a].task);
    forall t | t in s'.table.heap ensures TaskOk(s', t) { assert TaskOk(s, t); EnqueueTask(s, s', a, t); }
    forall k | k in s'.table.tasks ensures KeyOk(s', k) { assert KeyOk(s, k); }
  }

  lemma EnqueueAgent(s: State, s': State, a: Agent, b: Agent)
    requires MayEnqueue(s, a) && s' == EnqueueStep(s, a) && b in s'.pcs
    requires AgentOk(s, a) && AgentOk(s, b)
    ensures AgentOk(s', b)
  {
    assert s'.table == s.table && s'.place == s.place && s'.uses == s.uses && s'.requests == s.requests;
    if b != a { AgentFrame(s, s', b); }
  }

  lemma EnqueueWaiter(s: State, s': State, a: Agent, c: Call)
    requires MayEnqueue(s, a) && s' == EnqueueStep(s, a) && AgentOk(s, a) && WaiterOk(s, c)
    ensures WaiterOk(s', c)
  {
  }

  lemma EnqueueKept(s: State, a: Agent)
    requires Running(s) && MayEnqueue(s, a)
    ensures Running(EnqueueStep(s, a))
  {
    var s' := EnqueueStep(s, a);
    assert AgentOk(s, a);
    EnqueueTasks(s, s', a);
    assert TaskOk(s, s.pcs[a].task);
    EnqueueQueues(s, s', a);
    forall b | b in s'.pcs ensures AgentOk(s', b) { assert AgentOk(s, b); EnqueueAgent(s, s', a, b); }
    forall u | u in s'.uses ensures UseOk(s', u) { assert UseOk(s, u); }
    forall c | c in s'.requests ensures WaiterOk(s', c) { assert WaiterOk(s, c); EnqueueWaiter(s, s', a, c); }
  }

  // ---- a step that keeps the agent's task ----

  ghost predicate MaySwap(s: State, a: Agent, p: Pc) {
    && a in s.pcs && HasTask(s.pcs[a]) && HasTask(p) && p.task == s.pcs[a].task && KindOk(a, p)
    && RunsTask(p) == RunsTask(s.pcs[a]) && Served(p) == Served(s.pcs[a])
    && (RunsTask(p) ==> p.exec == s.pcs[a].exec)
    && (p.Enqueueing? || p.Withdrawing? ==> s.pcs[a].Enqueueing? && p.owed == s.pcs[a].owed)
    && (s.phase == Open ==> !p.Withdrawing?)
  }

  lemma SwapTasks(s: State, s': State, a: Agent, p: Pc)
    requires Running(s) && MaySwap(s, a, p) && s' == s.(pcs := s.pcs[a := p])
    ensures Tasks(s')
  {
    forall t | t in s'.table.heap ensures TaskOk(s', t) { assert TaskOk(s, t); TaskFrame(s, s', t); }
    forall k | k in s'.table.tasks ensures KeyOk(s', k) { assert KeyOk(s, k); }
  }

  lemma SwapAgent(s: State, s': State, a: Agent, p: Pc, b: Agent)
    requires MaySwap(s, a, p) && s' == s.(pcs := s.pcs[a := p]) && AgentOk(s, a) && AgentOk(s, b)
    ensures AgentOk(s', b)
  {
    if b != a { AgentFrame(s, s', b); }
  }

  lemma SwapWaiter(s: State, s': State, a: Agent, p: Pc, c: Call)
    requires MaySwap(s, a, p) && s' == s.(pcs := s.pcs[a := p]) && AgentOk(s, a) && WaiterOk(s, c)
    ensures WaiterOk(s', c)
  {
    WaiterFrame(s, s', c);
  }

  lemma SwapKept(s: State, a: Agent, p: Pc)
    requires Running(s) && MaySwap(s, a, p)
    ensures Running(s.(pcs := s.pcs[a := p]))
  {
    var s' := s.(pcs := s.pcs[a := p]);
    assert AgentOk(s, a);
    SwapTasks(s, s', a, p);
    forall b | b in s'.pcs ensures AgentOk(s', b) { assert AgentOk(s, b); SwapAgent(s, s', a, p, b); }
    forall u | u in s'.uses ensures UseOk(s', u) { assert UseOk(s, u); }
    forall c | c in s'.requests ensures WaiterOk(s', c) { assert WaiterOk(s, c); SwapWaiter(s, s', a, p, c); }
  }

  // ---- out of a queue ----

  ghost predicate MayTake(s: State, w: nat) {
    Worker(w) in s.pcs && (s.pcs[Worker(w)].Idle? || s.pcs[Worker(w)].Choosing?)
  }

  lemma TakeTask(s: State, s': State, w: nat, t: TaskId)
    requires MayTake(s, w) && QueuesOk(s) && AgentOk(s, Worker(w)) && TaskOk(s, t)
    requires (s.high != [] && s' == TakeHigh(s, w)) || (s.normal != [] && s' == TakeNormal(s, w))
    ensures TaskOk(s', t)
  {
    assert s.high != [] ==> s.high == [s.high[0]] + s.high[1..];
    assert s.normal != [] ==> s.normal == [s.normal[0]] + s.normal[1..];
    if s'.owner[t] == s.owner[t] { TaskFrame(s, s', t); }
  }

  lemma TakeAgent(s: State, s': State, w: nat, b: Agent)
    requires MayTake(s, w) && QueuesOk(s) && AgentOk(s, Worker(w)) && AgentOk(s, b) && b in s'.pcs
    requires (s.high != [] && s' == TakeHigh(s, w)) || (s.normal != [] && s' == TakeNormal(s, w))
    requires s.high != [] ==> TaskOk(s, s.high[0])
    requires s.normal != [] ==> TaskOk(s, s.normal[0])
    ensures AgentOk(s', b)
  {
    if b != Worker(w) { AgentFrame(s, s', b); }
  }

  lemma TakeTasks(s: State, s': State, w: nat)
    requires Running(s) && MayTake(s, w)
    requires (s.high != [] && s' == TakeHigh(s, w)) || (s.normal != [] && s' == TakeNormal(s, w))
    ensures Tasks(s')
  {
    assert AgentOk(s, Worker(w));
    forall t | t in s'.table.heap ensures TaskOk(s', t) { assert TaskOk(s, t); TakeTask(s, s', w, t); }
    forall k | k in s'.table.tasks ensures KeyOk(s', k) { assert KeyOk(s, k); }
  }

  lemma TakeAgents(s: State, s': State, w: nat)
    requires Running(s) && MayTake(s, w)
    requires (s.high != [] && s' == TakeHigh(s, w)) || (s.normal != [] && s' == TakeNormal(s, w))
    ensures Agents(s')
  {
    assert AgentOk(s, Worker(w));
    assert s.high != [] ==> TaskOk(s, s.high[0]);
    assert s.normal != [] ==> TaskOk(s, s.normal[0]);
    forall b | b in s'.pcs ensures AgentOk(s', b) { assert AgentOk(s, b); TakeAgent(s, s', w, b); }
    forall u | u in s'.uses ensures UseOk(s', u) { assert UseOk(s, u); }
  }

  lemma TakeWaiter(s: State, s': State, w: nat, c: Call)
    requires MayTake(s, w) && WaiterOk(s, c)
    requires (s.high != [] && s' == TakeHigh(s, w)) || (s.normal != [] && s' == TakeNormal(s, w))
    ensures WaiterOk(s', c)
  {
  }

  lemma TakeKept(s: State, s': State, w: nat)
    requires Running(s) && MayTake(s, w)
    requires (s.high != [] && s' == TakeHigh(s, w)) || (s.normal != [] && s' == TakeNormal(s, w))
    ensures Running(s')
  {
    TakeTasks(s, s', w);
    TakeAgents(s, s', w);
    forall c | c in s'.requests ensures WaiterOk(s', c) { assert WaiterOk(s, c); TakeWaiter(s, s', w, c); }
  }

  // ---- out of the table, not having run ----

  // Withdrawal by `a`, whether its enqueue failed or it found every waiter's context cancelled.
  function Withdrawn(s: State, a: Agent, t: TaskId, owed: seq<Call>): State
    requires t in s.table.heap
  {
    s.(table := Withdraw(s.table, s.table.heap[t].key),
       pcs := s.pcs[a := Notifying(owed)],
       owner := s.owner[t := Nobody],
       place := Moved(Moved(s.place, s.table.heap[t].waiters, Gone), owed, InFlight(a)),
       uses := s.uses - {OfTask(t)} + {OfAgent(a)})
  }

  ghost predicate MayWithdraw(s: State, a: Agent, t: TaskId, owed: seq<Call>) {
    && a in s.pcs && t in s.table.heap && t in s.owner && s.owner[t] == Held(a)
    && owed <= s.table.heap[t].waiters
    && (s.phase == Open ==> a.Worker? && owed == [] && forall c :: c in s.table.heap[t].waiters ==> c in s.dead)
    && (s.pcs[a] == Withdrawing(t, owed) || (s.pcs[a] == Starting(t) && owed == []))
  }

  lemma MovedAllAt(place: map<Call, Place>, ws: seq<Call>, q: Place, sub: seq<Call>, p: Place)
    requires AllAt(place, ws, q) && NoRepeats(sub) && forall c {:trigger c in sub} :: c in sub ==> c in ws
    ensures AllAt(Moved(Moved(place, ws, Gone), sub, p), sub, p)
  {
  }

  lemma WithdrawTaskOk(s: State, s': State, a: Agent, t: TaskId, owed: seq<Call>, u: TaskId)
    requires MayWithdraw(s, a, t, owed) && s' == Withdrawn(s, a, t, owed) && u in s'.table.heap
    requires TaskOk(s, u) && TaskOk(s, t) && AgentOk(s, a)
    ensures TaskOk(s', u)
  {
    if u != t { TaskFrame(s, s', u); }
  }

  lemma WithdrawAgent(s: State, s': State, a: Agent, t: TaskId, owed: seq<Call>, b: Agent)
    requires MayWithdraw(s, a, t, owed) && s' == Withdrawn(s, a, t, owed) && b in s'.pcs
    requires AgentOk(s, b) && TaskOk(s, t) && AgentOk(s, a)
    requires b.Submitter? && s.place[b.call] == AtTask(t) ==> s.pcs[b] !in {Attaching, Acquiring, Inserting}
    ensures AgentOk(s', b)
  {
    if b != a {
      AgentFrame(s, s', b);
    } else {
      assert forall i :: 0 <= i < |owed| ==> owed[i] == s.table.heap[t].waiters[i];
      MovedAllAt(s.place, s.table.heap[t].waiters, AtTask(t), owed, InFlight(a));
    }
  }

  lemma WithdrawWaiter(s: State, s': State, a: Agent, t: TaskId, owed: seq<Call>, c: Call)
    requires MayWithdraw(s, a, t, owed) && s' == Withdrawn(s, a, t, owed)
    requires WaiterOk(s, c) && TaskOk(s, t) && AgentOk(s, a)
    requires s.place[c].InFlight? && s.place[c].agent in s.pcs ==> AgentOk(s, s.place[c].agent)
    ensures WaiterOk(s', c)
  {
    WaiterFrame(s, s', c);
  }

  lemma WithdrawTasks(s: State, s': State, a: Agent, t: TaskId, owed: seq<Call>)
    requires Running(s) && MayWithdraw(s, a, t, owed) && s' == Withdrawn(s, a, t, owed)
    ensures Tasks(s')
  {
    assert AgentOk(s, a) && TaskOk(s, t);
    forall u | u in s'.table.heap ensures TaskOk(s', u) { assert TaskOk(s, u); WithdrawTaskOk(s, s', a, t, owed, u); }
    forall k | k in s'.table.tasks ensures KeyOk(s', k) { assert KeyOk(s, k); }
  }

  lemma WithdrawAgents(s: State, s': State, a: Agent, t: TaskId, owed: seq<Call>)
    requires Running(s) && MayWithdraw(s, a, t, owed) && s' == Withdrawn(s, a, t, owed)
    ensures Agents(s')
  {
    assert AgentOk(s, a) && TaskOk(s, t);
    forall b | b in s'.pcs ensures AgentOk(s', b) { assert AgentOk(s, b); WithdrawAgent(s, s', a, t, owed, b); }
    forall u | u in s'.uses ensures UseOk(s', u) { assert u in s.uses ==> UseOk(s, u); }
  }

  lemma WithdrawWaiters(s: State, s': State, a: Agent, t: TaskId, owed: seq<Call>)
    requires Running(s) && MayWithdraw(s, a, t, owed) && s' == Withdrawn(s, a, t, owed)
    ensures Waiters(s')
  {
    assert AgentOk(s, a) && TaskOk(s, t);
    forall c | c in s'.requests ensures WaiterOk(s', c) {
      assert WaiterOk(s, c);
      assert s.place[c].InFlight? && s.place[c].agent in s.pcs ==> AgentOk(s, s.place[c].agent);
      WithdrawWaiter(s, s', a, t, owed, c);
    }
  }

  lemma WithdrawKept(s: State, a: Agent, t: TaskId, owed: seq<Call>)
    requires Running(s) && MayWithdraw(s, a, t, owed)
    ensures Running(Withdrawn(s, a, t, owed))
  {
    var s' := Withdrawn(s, a, t, owed);
    assert AgentOk(s, a) && TaskOk(s, t);
    WithdrawTasks(s, s', a, t, owed);
    WithdrawAgents(s, s', a, t, owed);
    WithdrawWaiters(s, s', a, t, owed);
    KeyedFrom(s);
    WithdrawCounts(s.table, t);
  }
}

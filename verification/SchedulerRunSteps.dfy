/**
  The steps of a worker running a task, and the context events.
 */
module SchedulerRunSteps {
  import opened SchedulerModel
  import opened SchedulerInvariant
  import opened SchedulerSteps
  import opened SchedulerQueueSteps

  lemma LiveNoRepeats(ws: seq<Call>, dead: set<Call>)
    requires NoRepeats(ws)
    ensures NoRepeats(Live(ws, dead))
  {
  }

  // ---- an execution begins ----

  ghost predicate MayBegin(s: State, w: nat, t: TaskId, active: seq<Call>) {
    && Worker(w) in s.pcs && s.pcs[Worker(w)] == Starting(t) && t in s.table.heap && t in s.owner
    && active == Live(s.table.heap[t].waiters, s.dead)
  }

  function Begun(s: State, w: nat, t: TaskId, active: seq<Call>): State
    requires t in s.table.heap
  {
    s.(table := Begin(s.table, t),
       pcs := s.pcs[Worker(w) := Executing(t, active, s.executions + 1)],
       executions := s.executions + 1,
       place := Moved(Moved(s.place, s.table.heap[t].waiters, Gone), active, InFlight(Worker(w))))
  }

  lemma BeginTask(s: State, s': State, w: nat, t: TaskId, active: seq<Call>, u: TaskId)
    requires MayBegin(s, w, t, active) && s' == Begun(s, w, t, active) && u in s'.table.heap
    requires TaskOk(s, u) && TaskOk(s, t) && AgentOk(s, Worker(w))
    ensures TaskOk(s', u)
  {
    if u != t { TaskFrame(s, s', u); }
  }

  lemma BeginAgent(s: State, s': State, w: nat, t: TaskId, active: seq<Call>, b: Agent)
    requires MayBegin(s, w, t, active) && s' == Begun(s, w, t, active) && b in s'.pcs
    requires AgentOk(s, b) && TaskOk(s, t) && AgentOk(s, Worker(w))
    requires forall c {:trigger c in active} :: c in active ==> WaiterOk(s, c)
    ensures AgentOk(s', b)
  {
    if b != Worker(w) {
      AgentFrame(s, s', b);
    } else {
      LiveNoRepeats(s.table.heap[t].waiters, s.dead);
      MovedAllAt(s.place, s.table.heap[t].waiters, AtTask(t), active, InFlight(b));
    }
  }

  lemma BeginWaiter(s: State, s': State, w: nat, t: TaskId, active: seq<Call>, c: Call)
    requires MayBegin(s, w, t, active) && s' == Begun(s, w, t, active)
    requires WaiterOk(s, c) && TaskOk(s, t) && AgentOk(s, Worker(w))
    ensures WaiterOk(s', c)
  {
    WaiterFrame(s, s', c);
  }

  lemma BeginTasks(s: State, s': State, w: nat, t: TaskId, active: seq<Call>)
    requires Running(s) && MayBegin(s, w, t, active) && s' == Begun(s, w, t, active)
    ensures Tasks(s')
  {
    assert AgentOk(s, Worker(w)) && TaskOk(s, t);
    forall u | u in s'.table.heap ensures TaskOk(s', u) { assert TaskOk(s, u); BeginTask(s, s', w, t, active, u); }
    forall k | k in s'.table.tasks ensures KeyOk(s', k) { assert KeyOk(s, k); }
  }

  lemma BeginAgents(s: State, s': State, w: nat, t: TaskId, active: seq<Call>)
    requires Running(s) && MayBegin(s, w, t, active) && s' == Begun(s, w, t, active)
    ensures Agents(s')
  {
    assert AgentOk(s, Worker(w)) && TaskOk(s, t);
    forall c {:trigger c in active} | c in active ensures WaiterOk(s, c) { }
    forall b | b in s'.pcs ensures AgentOk(s', b) { assert AgentOk(s, b); BeginAgent(s, s', w, t, active, b); }
    forall u | u in s'.uses ensures UseOk(s', u) { assert UseOk(s, u); }
  }

  lemma BeginKept(s: State, w: nat, t: TaskId, active: seq<Call>)
    requires Running(s) && MayBegin(s, w, t, active)
    ensures Running(Begun(s, w, t, active))
  {
    var s' := Begun(s, w, t, active);
    assert AgentOk(s, Worker(w)) && TaskOk(s, t);
    BeginTasks(s, s', w, t, active);
    BeginAgents(s, s', w, t, active);
    forall c | c in s'.requests ensures WaiterOk(s', c) { assert WaiterOk(s, c); BeginWaiter(s, s', w, t, active, c); }
    KeyedFrom(s);
    BeginCounts(s.table, t);
  }

  // ---- one waiter is answered, or passed over ----

  // The first waiter of `a`'s list leaves it with `answer` (none when its context is cancelled).
  function Served1(s: State, a: Agent, p: Pc, x: Call, answer: seq<Answer>): State
    requires x in s.sent
  {
    s.(sent := s.sent[x := s.sent[x] + answer], pcs := s.pcs[a := p], place := s.place[x := Gone])
  }

  ghost predicate MayServe(s: State, a: Agent, p: Pc, x: Call, answer: seq<Answer>) {
    && a in s.pcs && Served(s.pcs[a]) != [] && x == Served(s.pcs[a])[0] && x in s.sent && |answer| <= 1
    && (answer == [] ==> x in s.dead)
    && (if s.pcs[a].Notifying?
        then p == Notifying(s.pcs[a].owed[1..]) && answer == [Canceled]
        else s.pcs[a].Delivering?
             && p == Delivering(s.pcs[a].task, s.pcs[a].served[1..], s.pcs[a].exec, s.pcs[a].value)
             && (answer == [] || exists v :: answer == [Completed(s.pcs[a].exec, v)]))
  }

  lemma ServedHead(s: State, a: Agent, p: Pc, x: Call, answer: seq<Answer>)
    requires MayServe(s, a, p, x, answer) && AgentOk(s, a)
    ensures x in s.place && s.place[x] == InFlight(a) && Served(s.pcs[a]) == [x] + Served(p) && x !in Served(p)
    ensures AllAt(s.place, Served(p), InFlight(a))
    ensures s.pcs[a].Delivering? ==> AllFresh(s, Served(p), s.pcs[a].exec)
    ensures s.pcs[a].Delivering? ==> x in s.requests && s.requests[x].stamp < s.pcs[a].exec <= s.executions
  {
    assert x in Served(s.pcs[a]);
    assert Served(s.pcs[a]) == [x] + Served(p);
    assert forall c {:trigger c in Served(p)} :: c in Served(p) ==> c in Served(s.pcs[a]);
  }

  lemma ServeAgent(s: State, s': State, a: Agent, p: Pc, x: Call, answer: seq<Answer>, b: Agent)
    requires MayServe(s, a, p, x, answer) && s' == Served1(s, a, p, x, answer) && b in s'.pcs
    requires AgentOk(s, a) && AgentOk(s, b)
    ensures AgentOk(s', b)
  {
    ServedHead(s, a, p, x, answer);
    if b != a {
      AgentFrame(s, s', b);
    } else {
      FrameAllAt(s.place, s'.place, Served(p), InFlight(a));
    }
  }

  lemma ServeWaiter(s: State, s': State, a: Agent, p: Pc, x: Call, answer: seq<Answer>, c: Call)
    requires MayServe(s, a, p, x, answer) && s' == Served1(s, a, p, x, answer)
    requires AgentOk(s, a) && WaiterOk(s, c)
    ensures WaiterOk(s', c)
  {
    ServedHead(s, a, p, x, answer);
  }

  lemma ServeTasks(s: State, s': State, a: Agent, p: Pc, x: Call, answer: seq<Answer>)
    requires Running(s) && MayServe(s, a, p, x, answer) && s' == Served1(s, a, p, x, answer)
    ensures Tasks(s')
  {
    assert AgentOk(s, a);
    ServedHead(s, a, p, x, answer);
    forall t | t in s'.table.heap ensures TaskOk(s', t) { assert TaskOk(s, t); TaskFrame(s, s', t); }
    forall k | k in s'.table.tasks ensures KeyOk(s', k) { assert KeyOk(s, k); }
  }

  lemma ServeKept(s: State, a: Agent, p: Pc, x: Call, answer: seq<Answer>)
    requires Running(s) && MayServe(s, a, p, x, answer)
    ensures Running(Served1(s, a, p, x, answer))
  {
    hide TaskOk, WaiterOk, PlaceTrue, OwnerOk, WaitersOk, AllAt, AllFresh;
    var s' := Served1(s, a, p, x, answer);
    assert AgentOk(s, a);
    ServeTasks(s, s', a, p, x, answer);
    forall b | b in s'.pcs ensures AgentOk(s', b) { assert AgentOk(s, b); ServeAgent(s, s', a, p, x, answer, b); }
    forall u | u in s'.uses ensures UseOk(s', u) { assert UseOk(s, u); }
    forall c | c in s'.requests ensures WaiterOk(s', c) { assert WaiterOk(s, c); ServeWaiter(s, s', a, p, x, answer, c); }
  }

  // ---- an execution ends ----

  ghost predicate MayFinish(s: State, w: nat, t: TaskId, next: seq<Call>) {
    && Worker(w) in s.pcs && s.pcs[Worker(w)].Delivering? && s.pcs[Worker(w)].task == t && s.pcs[Worker(w)].served == []
    && t in s.table.heap && t in s.owner && next == Live(s.table.heap[t].nextWaiters, s.dead)
  }

  function Retired(s: State, w: nat, t: TaskId): State
    requires t in s.table.heap
  {
    s.(table := Retire(s.table, t), pcs := s.pcs[Worker(w) := Notifying([])], owner := s.owner[t := Nobody],
       place := Moved(s.place, s.table.heap[t].nextWaiters, Gone),
       uses := s.uses - {OfTask(t)} + {OfAgent(Worker(w))})
  }

  lemma RetireTask(s: State, s': State, w: nat, t: TaskId, next: seq<Call>, u: TaskId)
    requires MayFinish(s, w, t, next) && s' == Retired(s, w, t) && u in s'.table.heap
    requires TaskOk(s, u) && TaskOk(s, t) && AgentOk(s, Worker(w))
    ensures TaskOk(s', u)
  {
    if u != t { TaskFrame(s, s', u); }
  }

  lemma RetireAgent(s: State, s': State, w: nat, t: TaskId, next: seq<Call>, b: Agent)
    requires MayFinish(s, w, t, next) && s' == Retired(s, w, t) && b in s'.pcs
    requires AgentOk(s, b) && TaskOk(s, t) && AgentOk(s, Worker(w))
    ensures AgentOk(s', b)
  {
    if b != Worker(w) { AgentFrame(s, s', b); }
  }

  lemma RetireWaiter(s: State, s': State, w: nat, t: TaskId, next: seq<Call>, c: Call)
    requires MayFinish(s, w, t, next) && s' == Retired(s, w, t) && (s.phase == Open ==> next == [])
    requires WaiterOk(s, c) && TaskOk(s, t) && AgentOk(s, Worker(w))
    requires s.place[c].InFlight? && s.place[c].agent in s.pcs ==> AgentOk(s, s.place[c].agent)
    ensures WaiterOk(s', c)
  {
    assert forall x :: x in s.table.heap[t].nextWaiters && x !in next ==> x in s.dead;
    WaiterFrame(s, s', c);
  }

  lemma RetireTasks(s: State, s': State, w: nat, t: TaskId, next: seq<Call>)
    requires Running(s) && MayFinish(s, w, t, next) && s' == Retired(s, w, t)
    ensures Tasks(s')
  {
    assert AgentOk(s, Worker(w)) && TaskOk(s, t);
    forall u | u in s'.table.heap ensures TaskOk(s', u) { assert TaskOk(s, u); RetireTask(s, s', w, t, next, u); }
    forall k | k in s'.table.tasks ensures KeyOk(s', k) { assert KeyOk(s, k); }
  }

  lemma RetireAgents(s: State, s': State, w: nat, t: TaskId, next: seq<Call>)
    requires Running(s) && MayFinish(s, w, t, next) && s' == Retired(s, w, t)
    ensures Agents(s')
  {
    assert AgentOk(s, Worker(w)) && TaskOk(s, t);
    forall b | b in s'.pcs ensures AgentOk(s', b) { assert AgentOk(s, b); RetireAgent(s, s', w, t, next, b); }
    forall u | u in s'.uses ensures UseOk(s', u) { assert u in s.uses ==> UseOk(s, u); }
  }

  lemma RetireKept(s: State, w: nat, t: TaskId, next: seq<Call>)
    requires Running(s) && MayFinish(s, w, t, next) && (s.phase == Open ==> next == [])
    ensures Running(Retired(s, w, t))
  {
    var s' := Retired(s, w, t);
    assert AgentOk(s, Worker(w)) && TaskOk(s, t);
    RetireTasks(s, s', w, t, next);
    RetireAgents(s, s', w, t, next);
    forall c | c in s'.requests ensures WaiterOk(s', c) {
      assert WaiterOk(s, c);
      assert s.place[c].InFlight? && s.place[c].agent in s.pcs ==> AgentOk(s, s.place[c].agent);
      RetireWaiter(s, s', w, t, next, c);
    }
    KeyedFrom(s);
    RetireCounts(s.table, t);
  }

  function Requeued(s: State, w: nat, t: TaskId, next: seq<Call>): State
    requires t in s.table.heap
  {
    s.(table := Renew(s.table, t, next), pcs := s.pcs[Worker(w) := Enqueueing(t, next)],
       place := Moved(Moved(s.place, s.table.heap[t].nextWaiters, Gone), next, AtTask(t)))
  }

  lemma RequeueTask(s: State, s': State, w: nat, t: TaskId, next: seq<Call>, u: TaskId)
    requires MayFinish(s, w, t, next) && s' == Requeued(s, w, t, next) && u in s'.table.heap
    requires TaskOk(s, u) && TaskOk(s, t) && AgentOk(s, Worker(w))
    ensures TaskOk(s', u)
  {
    if u != t {
      TaskFrame(s, s', u);
    } else {
      LiveNoRepeats(s.table.heap[t].nextWaiters, s.dead);
      MovedAllAt(s.place, s.table.heap[t].nextWaiters, AtNext(t), next, AtTask(t));
    }
  }

  lemma RequeueAgent(s: State, s': State, w: nat, t: TaskId, next: seq<Call>, b: Agent)
    requires MayFinish(s, w, t, next) && s' == Requeued(s, w, t, next) && b in s'.pcs
    requires AgentOk(s, b) && TaskOk(s, t) && AgentOk(s, Worker(w))
    ensures AgentOk(s', b)
  {
    if b != Worker(w) { AgentFrame(s, s', b); }
  }

  lemma RequeueWaiter(s: State, s': State, w: nat, t: TaskId, next: seq<Call>, c: Call)
    requires MayFinish(s, w, t, next) && s' == Requeued(s, w, t, next)
    requires WaiterOk(s, c) && TaskOk(s, t) && AgentOk(s, Worker(w))
    requires s.place[c].InFlight? && s.place[c].agent in s.pcs ==> AgentOk(s, s.place[c].agent)
    ensures WaiterOk(s', c)
  {
    WaiterFrame(s, s', c);
  }

  lemma RequeueTasks(s: State, s': State, w: nat, t: TaskId, next: seq<Call>)
    requires Running(s) && MayFinish(s, w, t, next) && s' == Requeued(s, w, t, next)
    ensures Tasks(s')
  {
    assert AgentOk(s, Worker(w)) && TaskOk(s, t);
    forall u | u in s'.table.heap ensures TaskOk(s', u) { assert TaskOk(s, u); RequeueTask(s, s', w, t, next, u); }
    forall k | k in s'.table.tasks ensures KeyOk(s', k) { assert KeyOk(s, k); }
  }

  lemma RequeueKept(s: State, w: nat, t: TaskId, next: seq<Call>)
    requires Running(s) && MayFinish(s, w, t, next)
    ensures Running(Requeued(s, w, t, next))
  {
    var s' := Requeued(s, w, t, next);
    assert AgentOk(s, Worker(w)) && TaskOk(s, t);
    RequeueTasks(s, s', w, t, next);
    forall b | b in s'.pcs ensures AgentOk(s', b) { assert AgentOk(s, b); RequeueAgent(s, s', w, t, next, b); }
    forall u | u in s'.uses ensures UseOk(s', u) { assert UseOk(s, u); }
    forall c | c in s'.requests ensures WaiterOk(s', c) {
      assert WaiterOk(s, c);
      assert s.place[c].InFlight? && s.place[c].agent in s.pcs ==> AgentOk(s, s.place[c].agent);
      RequeueWaiter(s, s', w, t, next, c);
    }
    KeyedFrom(s);
    RenewCounts(s.table, t, next);
  }

  // ---- contexts end ----

  lemma ContextKept(s: State, dead: set<Call>, phase: Phase)
    requires Running(s) && s.dead <= dead && phase != Stopped && (phase == Open ==> s.phase == Open)
    ensures Running(s.(dead := dead, phase := phase))
  {
    var s' := s.(dead := dead, phase := phase);
    forall t | t in s'.table.heap ensures TaskOk(s', t) { assert TaskOk(s, t); }
    forall k | k in s'.table.tasks ensures KeyOk(s', k) { assert KeyOk(s, k); }
    forall a | a in s'.pcs ensures AgentOk(s', a) { assert AgentOk(s, a); }
    forall u | u in s'.uses ensures UseOk(s', u) { assert UseOk(s, u); }
    forall c | c in s'.requests ensures WaiterOk(s', c) { assert WaiterOk(s, c); }
  }

  lemma StopKept(s: State)
    requires Running(s) && Enabled(s, Event.Stop)
    ensures Over(StopStep(s))
  {
    var s' := StopStep(s);
    forall a | a in s'.pcs ensures ExitedOk(s', a) { assert AgentOk(s, a); }
    forall c | c in s'.requests ensures AnswerOk(s', c) { assert WaiterOk(s, c); }
  }
}

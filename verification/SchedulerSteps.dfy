/**
  Each step of the scheduler keeps the invariant.  The frame lemmas say what an unaffected task,
  agent or waiter needs; a step's own lemmas treat the affected ones.
 */
module SchedulerSteps {
  import opened SchedulerModel
  import opened SchedulerInvariant

  // ---- frames ----

  lemma FrameAllAt(place: map<Call, Place>, place': map<Call, Place>, cs: seq<Call>, p: Place)
    requires AllAt(place, cs, p)
    requires forall c {:trigger c in cs} :: c in cs ==> c in place' && place'[c] == place[c]
    ensures AllAt(place', cs, p)
  {
  }

  lemma AppendAllAt(place: map<Call, Place>, cs: seq<Call>, c: Call, p: Place)
    requires AllAt(place, cs, p) && c in place && place[c] != p
    ensures AllAt(place[c := p], cs + [c], p)
  {
    assert c !in cs;
  }

  ghost predicate KeepsPlace(s: State, s': State, p: Place) {
    forall c {:trigger c in s.place} :: c in s.place && s.place[c] == p ==> c in s'.place && s'.place[c] == p
  }

  ghost predicate SameAgent(s: State, s': State, a: Agent) {
    && a in s.pcs && a in s'.pcs && HasTask(s.pcs[a]) && HasTask(s'.pcs[a])
    && s.pcs[a].task == s'.pcs[a].task && RunsTask(s.pcs[a]) == RunsTask(s'.pcs[a])
  }

  lemma TaskFrame(s: State, s': State, t: TaskId)
    requires TaskOk(s, t)
    requires t in s'.table.heap && t in s'.owner && s'.table.heap[t] == s.table.heap[t] && s'.owner[t] == s.owner[t]
    requires s'.table.Registered(t) == s.table.Registered(t)
    requires (t in s'.high) == (t in s.high) && (t in s'.normal) == (t in s.normal)
    requires (OfTask(t) in s'.uses) == (OfTask(t) in s.uses)
    requires s.owner[t].Held? ==> SameAgent(s, s', s.owner[t].agent)
    requires KeepsPlace(s, s', AtTask(t)) && KeepsPlace(s, s', AtNext(t))
    ensures TaskOk(s', t)
  {
    if s.owner[t] != Nobody && !s.table.heap[t].running { FrameAllAt(s.place, s'.place, s.table.heap[t].waiters, AtTask(t)); }
    if s.table.heap[t].running { FrameAllAt(s.place, s'.place, s.table.heap[t].nextWaiters, AtNext(t)); }
  }

  ghost predicate Grows(s: State, s': State) {
    && s.executions <= s'.executions
    && (forall c {:trigger c in s.requests} :: c in s.requests ==> c in s'.requests && s'.requests[c] == s.requests[c])
  }

  lemma AgentFrame(s: State, s': State, a: Agent)
    requires AgentOk(s, a) && a in s'.pcs && s'.pcs[a] == s.pcs[a] && Grows(s, s')
    requires s'.phase == s.phase || s'.phase != Open
    requires a.Submitter? ==> a.call in s'.place && (s.place[a.call] == Nowhere ==> s'.place[a.call] == Nowhere)
    requires HasTask(s.pcs[a]) ==>
               var t := s.pcs[a].task;
               t in s'.table.heap && t in s'.owner && s'.owner[t] == s.owner[t] && s.table.heap[t].waiters <= s'.table.heap[t].waiters
    requires (OfAgent(a) in s'.uses) == (OfAgent(a) in s.uses)
    requires KeepsPlace(s, s', InFlight(a))
    ensures AgentOk(s', a)
  {
    FrameAllAt(s.place, s'.place, Served(s.pcs[a]), InFlight(a));
  }

  lemma WaiterFrame(s: State, s': State, c: Call)
    requires WaiterOk(s, c) && Grows(s, s') && Submitter(c) in s'.pcs
    requires c in s'.sent && s'.sent[c] == s.sent[c]
    requires c in s'.place && (s'.place[c] == s.place[c] || s.sent[c] == [])
    requires s'.phase == Open ==> PlaceTrue(s', c)
    ensures WaiterOk(s', c)
  {
  }

  // ---- the counters against the table they count ----

  ghost predicate Keyed(tb: Table) {
    forall k {:trigger tb.tasks[k]} :: k in tb.tasks ==> tb.tasks[k] in tb.heap && tb.heap[tb.tasks[k]].key == k
  }

  lemma KeyedFrom(s: State)
    requires Tasks(s)
    ensures Keyed(s.table)
  {
    forall k | k in s.table.tasks ensures s.table.tasks[k] in s.table.heap && s.table.heap[s.table.tasks[k]].key == k {
      assert KeyOk(s, k);
    }
  }

  lemma AttachCounts(tb: Table, t: TaskId, p: Priority, c: Call)
    requires CountersOk(tb) && t in tb.heap
    ensures CountersOk(Attach(tb, t, p, c))
  {
    var tb' := Attach(tb, t, p, c);
    assert WaitingKeys(tb') == WaitingKeys(tb) && RunningKeys(tb') == RunningKeys(tb);
  }

  lemma RegisterCounts(tb: Table, t: TaskId, key: Key, p: Priority, c: Call)
    requires CountersOk(tb) && Keyed(tb) && t !in tb.heap && key !in tb.tasks
    ensures CountersOk(Register(tb, t, key, p, c))
  {
    var tb' := Register(tb, t, key, p, c);
    assert WaitingKeys(tb') == WaitingKeys(tb) + {key} && RunningKeys(tb') == RunningKeys(tb);
  }

  lemma WithdrawCounts(tb: Table, t: TaskId)
    requires CountersOk(tb) && Keyed(tb) && tb.Registered(t) && !tb.heap[t].running
    ensures CountersOk(Withdraw(tb, tb.heap[t].key))
  {
    var tb' := Withdraw(tb, tb.heap[t].key);
    assert WaitingKeys(tb') == WaitingKeys(tb) - {tb.heap[t].key} && RunningKeys(tb') == RunningKeys(tb);
  }

  lemma BeginCounts(tb: Table, t: TaskId)
    requires CountersOk(tb) && Keyed(tb) && tb.Registered(t) && !tb.heap[t].running
    ensures CountersOk(Begin(tb, t))
  {
    var tb' := Begin(tb, t);
    var k := tb.heap[t].key;
    assert forall j {:trigger tb.tasks[j]} :: j in tb.tasks && j != k ==> tb'.heap[tb.tasks[j]] == tb.heap[tb.tasks[j]];
    assert WaitingKeys(tb') == WaitingKeys(tb) - {k} && RunningKeys(tb') == RunningKeys(tb) + {k};
  }

  lemma RetireCounts(tb: Table, t: TaskId)
    requires CountersOk(tb) && Keyed(tb) && tb.Registered(t) && tb.heap[t].running
    ensures CountersOk(Retire(tb, t))
  {
    var tb' := Retire(tb, t);
    assert WaitingKeys(tb') == WaitingKeys(tb) && RunningKeys(tb') == RunningKeys(tb) - {tb.heap[t].key};
  }

  lemma RenewCounts(tb: Table, t: TaskId, next: seq<Call>)
    requires CountersOk(tb) && Keyed(tb) && tb.Registered(t) && tb.heap[t].running
    ensures CountersOk(Renew(tb, t, next))
  {
    var tb' := Renew(tb, t, next);
    var k := tb.heap[t].key;
    assert forall j {:trigger tb.tasks[j]} :: j in tb.tasks && j != k ==> tb'.heap[tb.tasks[j]] == tb.heap[tb.tasks[j]];
    forall j ensures j in WaitingKeys(tb') <==> j in WaitingKeys(tb) + {k} { }
    assert WaitingKeys(tb') == WaitingKeys(tb) + {k};
    forall j ensures j in RunningKeys(tb') <==> j in RunningKeys(tb) - {k} { }
    assert RunningKeys(tb') == RunningKeys(tb) - {k};
  }

  // ---- a step that only moves one agent ----

  // A position that holds no task, no slot and no waiter.
  ghost predicate Plain(p: Pc) {
    !HasTask(p) && !HoldsSlot(p)
  }

  ghost predicate MayMove(s: State, a: Agent, p: Pc) {
    && a in s.pcs && Plain(s.pcs[a]) && Plain(p) && KindOk(a, p)
    && (a.Submitter? ==> a.call in s.place && s.place[a.call] == Nowhere && p in {Attaching, Acquiring, Inserting, Refused})
  }

  lemma MoveTasks(s: State, s': State, a: Agent, p: Pc)
    requires Running(s) && MayMove(s, a, p) && s' == s.(pcs := s.pcs[a := p])
    ensures Tasks(s')
  {
    forall t | t in s'.table.heap ensures TaskOk(s', t) { assert TaskOk(s, t); TaskFrame(s, s', t); }
    forall k | k in s'.table.tasks ensures KeyOk(s', k) { assert KeyOk(s, k); }
  }

  lemma MoveWaiters(s: State, s': State, a: Agent, p: Pc)
    requires Running(s) && MayMove(s, a, p) && s' == s.(pcs := s.pcs[a := p])
    ensures Waiters(s')
  {
    forall c | c in s'.requests ensures WaiterOk(s', c) { assert WaiterOk(s, c); WaiterFrame(s, s', c); }
  }

  lemma MoveKept(s: State, a: Agent, p: Pc)
    requires Running(s) && MayMove(s, a, p)
    ensures Running(s.(pcs := s.pcs[a := p]))
  {
    var s' := s.(pcs := s.pcs[a := p]);
    MoveTasks(s, s', a, p);
    MoveWaiters(s, s', a, p);
    forall b | b in s'.pcs ensures AgentOk(s', b) { assert AgentOk(s, b); if b != a { AgentFrame(s, s', b); } }
    forall u | u in s'.uses ensures UseOk(s', u) { assert UseOk(s, u); }
  }

  // ---- submitting ----

  function SubmitStep(s: State, c: Call, r: Request, p: Pc): State {
    s.(pcs := s.pcs[Submitter(c) := p], requests := s.requests[c := r], sent := s.sent[c := []], place := s.place[c := Nowhere])
  }

  ghost predicate MaySubmit(s: State, c: Call, r: Request, p: Pc) {
    Submitter(c) !in s.pcs && c !in s.requests && p in {Attaching, Refused} && r.stamp == s.executions
  }

  lemma SubmitTasks(s: State, s': State, c: Call, r: Request, p: Pc)
    requires Running(s) && MaySubmit(s, c, r, p) && s' == SubmitStep(s, c, r, p)
    ensures Tasks(s')
  {
    forall t | t in s'.table.heap ensures TaskOk(s', t) { assert TaskOk(s, t); TaskFrame(s, s', t); }
    forall k | k in s'.table.tasks ensures KeyOk(s', k) { assert KeyOk(s, k); }
  }

  lemma SubmitWaiters(s: State, s': State, c: Call, r: Request, p: Pc)
    requires Running(s) && MaySubmit(s, c, r, p) && s' == SubmitStep(s, c, r, p)
    ensures Waiters(s')
  {
    forall x | x in s'.requests ensures WaiterOk(s', x) { if x != c { assert WaiterOk(s, x); WaiterFrame(s, s', x); } }
  }

  lemma SubmitKept(s: State, c: Call, r: Request, p: Pc)
    requires Running(s) && MaySubmit(s, c, r, p)
    ensures Running(SubmitStep(s, c, r, p))
  {
    var s' := SubmitStep(s, c, r, p);
    assert OfAgent(Submitter(c)) in s.uses ==> UseOk(s, OfAgent(Submitter(c)));
    SubmitTasks(s, s', c, r, p);
    SubmitWaiters(s, s', c, r, p);
    forall b | b in s'.pcs ensures AgentOk(s', b) { if b != Submitter(c) { assert AgentOk(s, b); AgentFrame(s, s', b); } }
    forall u | u in s'.uses ensures UseOk(s', u) { assert UseOk(s, u); }
  }

  ghost predicate MayAttach(s: State, c: Call, next: Pc) {
    && c in s.requests && s.requests[c].key in s.table.tasks && s.table.tasks[s.requests[c].key] in s.table.heap
    && ((At(s, Submitter(c), Attaching) && next == Accepted) || (At(s, Submitter(c), Inserting) && next == GivingBack))
  }

  lemma AttachTask(s: State, s': State, c: Call, next: Pc, t: TaskId)
    requires MayAttach(s, c, next) && s' == AttachStep(s, c, next) && t in s'.table.heap
    requires TaskOk(s, t) && WaiterOk(s, c) && AgentOk(s, Submitter(c)) && KeyOk(s, s.requests[c].key)
    ensures TaskOk(s', t)
  {
    if t != s.table.tasks[s.requests[c].key] {
      TaskFrame(s, s', t);
    } else if s.table.heap[t].running {
      AppendAllAt(s.place, s.table.heap[t].nextWaiters, c, AtNext(t));
    } else if s.owner[t] != Nobody {
      AppendAllAt(s.place, s.table.heap[t].waiters, c, AtTask(t));
    }
  }

  lemma AttachAgent(s: State, s': State, c: Call, next: Pc, a: Agent)
    requires MayAttach(s, c, next) && s' == AttachStep(s, c, next) && a in s'.pcs
    requires AgentOk(s, a) && WaiterOk(s, c) && AgentOk(s, Submitter(c))
    ensures AgentOk(s', a)
  {
    if a != Submitter(c) { AgentFrame(s, s', a); }
  }

  lemma AttachWaiter(s: State, s': State, c: Call, next: Pc, x: Call)
    requires MayAttach(s, c, next) && s' == AttachStep(s, c, next) && x in s'.requests
    requires WaiterOk(s, x) && WaiterOk(s, c) && AgentOk(s, Submitter(c)) && KeyOk(s, s.requests[c].key)
    ensures WaiterOk(s', x)
  {
  }

  lemma AttachTasks(s: State, s': State, c: Call, next: Pc)
    requires Running(s) && MayAttach(s, c, next) && s' == AttachStep(s, c, next)
    ensures Tasks(s')
  {
    assert KeyOk(s, s.requests[c].key) && WaiterOk(s, c) && AgentOk(s, Submitter(c));
    forall t | t in s'.table.heap ensures TaskOk(s', t) { assert TaskOk(s, t); AttachTask(s, s', c, next, t); }
    forall k | k in s'.table.tasks ensures KeyOk(s', k) { assert KeyOk(s, k); }
  }

  lemma AttachKept(s: State, c: Call, next: Pc)
    requires Running(s) && MayAttach(s, c, next)
    ensures Running(AttachStep(s, c, next))
  {
    var s' := AttachStep(s, c, next);
    assert KeyOk(s, s.requests[c].key) && WaiterOk(s, c) && AgentOk(s, Submitter(c));
    AttachTasks(s, s', c, next);
    forall a | a in s'.pcs ensures AgentOk(s', a) { assert AgentOk(s, a); AttachAgent(s, s', c, next, a); }
    forall u | u in s'.uses ensures UseOk(s', u) { assert UseOk(s, u); }
    forall x | x in s'.requests ensures WaiterOk(s', x) { assert WaiterOk(s, x); AttachWaiter(s, s', c, next, x); }
    AttachCounts(s.table, s.table.tasks[s.requests[c].key], s.requests[c].priority, c);
  }

  lemma RegisterTask(s: State, s': State, c: Call, t0: TaskId, t: TaskId)
    requires c in s.requests && s.requests[c].key !in s.table.tasks && t0 !in s.table.heap && At(s, Submitter(c), Inserting)
    requires s' == RegisterStep(s, c, t0) && t in s'.table.heap && s.owner.Keys == s.table.heap.Keys
    requires t != t0 ==> TaskOk(s, t)
    requires AgentOk(s, Submitter(c)) && t0 !in s.high && t0 !in s.normal && OfTask(t0) !in s.uses
    ensures TaskOk(s', t)
  {
    if t != t0 { TaskFrame(s, s', t); }
  }

  lemma RegisterAgent(s: State, s': State, c: Call, t0: TaskId, a: Agent)
    requires c in s.requests && s.requests[c].key !in s.table.tasks && t0 !in s.table.heap && At(s, Submitter(c), Inserting)
    requires s' == RegisterStep(s, c, t0) && a in s'.pcs
    requires AgentOk(s, a) && AgentOk(s, Submitter(c))
    ensures AgentOk(s', a)
  {
    if a != Submitter(c) { AgentFrame(s, s', a); }
  }

  lemma RegisterWaiter(s: State, s': State, c: Call, t0: TaskId, x: Call)
    requires c in s.requests && s.requests[c].key !in s.table.tasks && t0 !in s.table.heap && At(s, Submitter(c), Inserting)
    requires s' == RegisterStep(s, c, t0) && x in s'.requests
    requires WaiterOk(s, x) && WaiterOk(s, c) && AgentOk(s, Submitter(c))
    ensures WaiterOk(s', x)
  {
  }

  lemma RegisterTasks(s: State, s': State, c: Call, t0: TaskId)
    requires Running(s) && c in s.requests && s.requests[c].key !in s.table.tasks && t0 !in s.table.heap
    requires At(s, Submitter(c), Inserting) && s' == RegisterStep(s, c, t0)
    ensures Tasks(s')
  {
    assert AgentOk(s, Submitter(c));
    assert OfTask(t0) in s.uses ==> UseOk(s, OfTask(t0));
    forall t | t in s'.table.heap ensures TaskOk(s', t) { assert t != t0 ==> TaskOk(s, t); RegisterTask(s, s', c, t0, t); }
    forall k | k in s'.table.tasks ensures KeyOk(s', k) { assert k != s.requests[c].key ==> KeyOk(s, k); }
  }

  lemma RegisterKept(s: State, c: Call, t0: TaskId)
    requires Running(s) && c in s.requests && s.requests[c].key !in s.table.tasks && t0 !in s.table.heap
    requires At(s, Submitter(c), Inserting)
    ensures Running(RegisterStep(s, c, t0))
  {
    var s' := RegisterStep(s, c, t0);
    assert AgentOk(s, Submitter(c)) && WaiterOk(s, c);
    assert OfTask(t0) in s.uses ==> UseOk(s, OfTask(t0));
    RegisterTasks(s, s', c, t0);
    KeyedFrom(s);
    RegisterCounts(s.table, t0, s.requests[c].key, s.requests[c].priority, c);
    forall a | a in s'.pcs ensures AgentOk(s', a) { assert AgentOk(s, a); RegisterAgent(s, s', c, t0, a); }
    forall u | u in s'.uses ensures UseOk(s', u) { assert u in s.uses ==> UseOk(s, u); }
    forall x | x in s'.requests ensures WaiterOk(s', x) { assert WaiterOk(s, x); RegisterWaiter(s, s', c, t0, x); }
  }

  // ---- slots ----

  function SlotStep(s: State, a: Agent, p: Pc, taken: bool): State
    requires taken || s.slots > 0
  {
    s.(slots := if taken then s.slots + 1 else s.slots - 1,
       uses := if taken then s.uses + {OfAgent(a)} else s.uses - {OfAgent(a)},
       pcs := s.pcs[a := p])
  }

  ghost predicate MayTurnSlot(s: State, a: Agent, p: Pc, taken: bool) {
    && a in s.pcs
    && (taken ==> s.pcs[a] == Acquiring && p == Inserting && s.slots < s.capacity)
    && (!taken ==>
         && s.slots > 0
         && ((s.pcs[a] == GivingBack && p == Accepted) || (s.pcs[a] == Notifying([]) && p == if a.Worker? then Idle else Refused)))
  }

  lemma SlotAgent(s: State, s': State, a: Agent, p: Pc, taken: bool, b: Agent)
    requires MayTurnSlot(s, a, p, taken) && s' == SlotStep(s, a, p, taken) && AgentOk(s, b) && AgentOk(s, a) && b in s'.pcs
    ensures AgentOk(s', b)
  {
    if b != a { AgentFrame(s, s', b); }
  }

  lemma SlotWaiter(s: State, s': State, a: Agent, p: Pc, taken: bool, x: Call)
    requires MayTurnSlot(s, a, p, taken) && s' == SlotStep(s, a, p, taken) && WaiterOk(s, x) && AgentOk(s, a)
    ensures WaiterOk(s', x)
  {
  }

  lemma SlotKept(s: State, a: Agent, p: Pc, taken: bool)
    requires Running(s) && MayTurnSlot(s, a, p, taken)
    ensures Running(SlotStep(s, a, p, taken))
  {
    var s' := SlotStep(s, a, p, taken);
    assert AgentOk(s, a);
    forall t | t in s'.table.heap ensures TaskOk(s', t) { assert TaskOk(s, t); TaskFrame(s, s', t); }
    forall k | k in s'.table.tasks ensures KeyOk(s', k) { assert KeyOk(s, k); }
    forall b | b in s'.pcs ensures AgentOk(s', b) { assert AgentOk(s, b); SlotAgent(s, s', a, p, taken, b); }
    forall u | u in s'.uses ensures UseOk(s', u) { assert u in s.uses ==> UseOk(s, u); }
    forall x | x in s'.requests ensures WaiterOk(s', x) { assert WaiterOk(s, x); SlotWaiter(s, s', a, p, taken, x); }
  }
}

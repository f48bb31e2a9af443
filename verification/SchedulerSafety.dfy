/**
  What holds in every state some interleaving of submitters, workers, context cancellations and
  the scheduler's own shutdown can reach.
 */
module SchedulerSafety {
  import opened SchedulerModel
  import opened SchedulerInvariant
  import opened SchedulerSteps
  import opened SchedulerQueueSteps
  import opened SchedulerRunSteps

  lemma SubmitterStepKept(s: State, e: Event)
    requires Running(s) && Enabled(s, e)
    requires e.CallSubmit? || e.AttachExisting? || e.TakeSlot? || e.GiveUp? || e.Insert? || e.GiveBack?
    ensures Running(Apply(s, e))
  {
    match e {
      case CallSubmit(c, key, priority) =>
        SubmitKept(s, c, Request(key, priority, s.executions), if s.phase == Open && c !in s.dead then Attaching else Refused);
      case AttachExisting(c) =>
        assert AgentOk(s, Submitter(c));
        if s.requests[c].key in s.table.tasks {
          assert KeyOk(s, s.requests[c].key);
          AttachKept(s, c, Accepted);
        } else {
          MoveKept(s, Submitter(c), Acquiring);
        }
      case TakeSlot(c) => SlotKept(s, Submitter(c), Inserting, true);
      case GiveUp(c) => assert AgentOk(s, Submitter(c)); MoveKept(s, Submitter(c), Refused);
      case Insert(c, spare) =>
        if s.requests[c].key in s.table.tasks {
          assert KeyOk(s, s.requests[c].key);
          AttachKept(s, c, GivingBack);
        } else {
          RegisterKept(s, c, spare);
        }
      case GiveBack(c) => SlotKept(s, Submitter(c), Accepted, false);
    }
  }

  lemma SharedStepKept(s: State, e: Event)
    requires Running(s) && Enabled(s, e)
    requires e.Enqueue? || e.EnqueueFails? || e.WithdrawTask? || e.NotifyOne? || e.Release?
    ensures Running(Apply(s, e))
  {
    match e {
      case Enqueue(a) => EnqueueKept(s, a);
      case EnqueueFails(a) =>
        assert AgentOk(s, a);
        SwapKept(s, a, Withdrawing(s.pcs[a].task, s.pcs[a].owed));
      case WithdrawTask(a) =>
        assert AgentOk(s, a);
        WithdrawKept(s, a, s.pcs[a].task, s.pcs[a].owed);
      case NotifyOne(a) =>
        var x := s.pcs[a].owed[0];
        assert AgentOk(s, a);
        assert x in Served(s.pcs[a]);
        assert x in s.place && WaiterOk(s, x);
        ServeKept(s, a, Notifying(s.pcs[a].owed[1..]), x, [Canceled]);
        assert s.sent[x] + [Canceled] == [Canceled];
      case Release(a) => SlotKept(s, a, if a.Worker? then Idle else Refused, false);
    }
  }

  lemma WorkerStepKept(s: State, e: Event)
    requires Running(s) && Enabled(s, e)
    requires e.Poll? || e.ChooseHigh? || e.ChooseNormal? || e.Exit?
    ensures Running(Apply(s, e))
  {
    match e {
      case Poll(w) => if s.high != [] { TakeKept(s, TakeHigh(s, w), w); } else { MoveKept(s, Worker(w), Choosing); }
      case ChooseHigh(w) => TakeKept(s, TakeHigh(s, w), w);
      case ChooseNormal(w) => TakeKept(s, TakeNormal(s, w), w);
      case Exit(w) => MoveKept(s, Worker(w), Exited);
    }
  }

  lemma AnswerStepKept(s: State, e: Event)
    requires Running(s) && Enabled(s, e) && (e.Execute? || e.Deliver? || e.SkipDead?)
    ensures Running(Apply(s, e))
  {
    var p := s.pcs[Worker(e.w)];
    assert AgentOk(s, Worker(e.w));
    match e {
      case Execute(w, value) => SwapKept(s, Worker(w), Delivering(p.task, p.served, p.exec, value));
      case Deliver(w) =>
        ServeKept(s, Worker(w), Delivering(p.task, p.served[1..], p.exec, p.value), p.served[0], [Completed(p.exec, p.value)]);
      case SkipDead(w) =>
        var x := p.served[0];
        assert x in Served(p);
        assert WaiterOk(s, x);
        ServeKept(s, Worker(w), Delivering(p.task, p.served[1..], p.exec, p.value), x, []);
        assert s.sent[x] + [] == s.sent[x] && s.sent[x := s.sent[x]] == s.sent;
    }
  }

  lemma StartKept(s: State, w: nat)
    requires Running(s) && Enabled(s, Start(w))
    ensures Running(StartStep(s, w))
  {
    var a := Worker(w);
    var t := s.pcs[a].task;
    assert AgentOk(s, a) && TaskOk(s, t);
    var active := Live(s.table.heap[t].waiters, s.dead);
    if active == [] {
      assert forall c :: c in s.table.heap[t].waiters ==> c in active || c in s.dead;
      WithdrawKept(s, a, t, []);
      assert Moved(s.place, s.table.heap[t].waiters, Gone) == Moved(Moved(s.place, s.table.heap[t].waiters, Gone), [], InFlight(a));
    } else {
      BeginKept(s, w, t, active);
    }
  }

  lemma FinishKept(s: State, w: nat)
    requires Running(s) && Enabled(s, Finish(w))
    ensures Running(FinishStep(s, w))
  {
    var t := s.pcs[Worker(w)].task;
    assert AgentOk(s, Worker(w));
    var next := Live(s.table.heap[t].nextWaiters, s.dead);
    if next == [] || s.phase != Open { RetireKept(s, w, t, next); } else { RequeueKept(s, w, t, next); }
  }

  ghost predicate ActsInOver(e: Event) {
    e.CallSubmit? || e.AttachExisting? || e.TakeSlot? || e.GiveUp? || e.Insert? || e.GiveBack?
    || e.Enqueue? || e.EnqueueFails? || e.WithdrawTask? || e.Release? || e.Kill?
  }

  lemma OverPositions(s: State)
    requires Over(s)
    ensures forall a :: a in s.pcs && a.Worker? ==> s.pcs[a] == Exited
    ensures forall a :: a in s.pcs ==> Served(s.pcs[a]) == []
  {
    forall a | a in s.pcs
      ensures a.Worker? ==> s.pcs[a] == Exited
      ensures Served(s.pcs[a]) == []
    {
      assert ExitedOk(s, a);
    }
  }

  // Once the table is dropped no worker is left: only submitters and contexts still move.
  lemma OverEvents(s: State, e: Event)
    requires Over(s) && Enabled(s, e)
    ensures ActsInOver(e)
  {
    OverPositions(s);
  }

  lemma OverPcEnters(s: State, e: Event, a: Agent)
    requires Enabled(s, e) && (e.CallSubmit? || e.AttachExisting? || e.Insert?) && a in Apply(s, e).pcs
    requires (a in s.pcs ==> ExitedOk(s, a)) && s.phase == Stopped
    ensures ExitedOk(Apply(s, e), a)
  {
    hide Attach, Register;
  }

  lemma OverPcJoin(s: State, e: Event, a: Agent)
    requires Over(s) && Enabled(s, e) && (e.CallSubmit? || e.AttachExisting? || e.Insert?) && a in Apply(s, e).pcs
    ensures ExitedOk(Apply(s, e), a)
  {
    hide ExitedOk, AnswerOk;
    assert a in s.pcs ==> ExitedOk(s, a);
    OverPcEnters(s, e, a);
  }

  lemma OverPcOwn(s: State, e: Event, a: Agent)
    requires Enabled(s, e) && (e.TakeSlot? || e.GiveUp? || e.GiveBack? || e.Kill?) && a in s.pcs && ExitedOk(s, a)
    ensures ExitedOk(Apply(s, e), a) && a in Apply(s, e).pcs && Apply(s, e).pcs.Keys == s.pcs.Keys
  {
  }

  lemma OverPcShared(s: State, e: Event, a: Agent)
    requires Enabled(s, e) && (e.Enqueue? || e.EnqueueFails? || e.WithdrawTask? || e.Release?) && a in s.pcs && ExitedOk(s, a)
    requires ExitedOk(s, e.a)
    ensures ExitedOk(Apply(s, e), a) && a in Apply(s, e).pcs && Apply(s, e).pcs.Keys == s.pcs.Keys
  {
    hide Moved;
  }

  lemma OverPc(s: State, e: Event, a: Agent)
    requires Over(s) && Enabled(s, e) && ActsInOver(e) && a in Apply(s, e).pcs
    requires !e.CallSubmit? && !e.AttachExisting? && !e.Insert?
    ensures ExitedOk(Apply(s, e), a)
  {
    hide ExitedOk, AnswerOk;
    forall b | b in s.pcs ensures ExitedOk(Apply(s, e), b) && Apply(s, e).pcs.Keys == s.pcs.Keys {
      assert ExitedOk(s, b);
      if e.TakeSlot? || e.GiveUp? || e.GiveBack? || e.Kill? {
        OverPcOwn(s, e, b);
      } else {
        assert ExitedOk(s, e.a);
        OverPcShared(s, e, b);
      }
    }
  }

  lemma OverAnswerJoin(s: State, e: Event, c: Call)
    requires Over(s) && Enabled(s, e) && (e.CallSubmit? || e.AttachExisting? || e.Insert?) && c in Apply(s, e).requests
    ensures AnswerOk(Apply(s, e), c)
  {
    assert c in s.requests ==> AnswerOk(s, c);
  }

  lemma OverAnswer(s: State, e: Event, c: Call)
    requires Over(s) && Enabled(s, e) && ActsInOver(e) && c in Apply(s, e).requests
    requires !e.CallSubmit? && !e.AttachExisting? && !e.Insert?
    ensures AnswerOk(Apply(s, e), c)
  {
    assert c in s.requests ==> AnswerOk(s, c);
  }

  lemma OverKept(s: State, e: Event)
    requires Over(s) && Enabled(s, e)
    ensures Over(Apply(s, e))
  {
    OverEvents(s, e);
    forall a | a in Apply(s, e).pcs ensures ExitedOk(Apply(s, e), a) {
      if e.CallSubmit? || e.AttachExisting? || e.Insert? { OverPcJoin(s, e, a); } else { OverPc(s, e, a); }
    }
    forall c | c in Apply(s, e).requests ensures AnswerOk(Apply(s, e), c) {
      if e.CallSubmit? || e.AttachExisting? || e.Insert? { OverAnswerJoin(s, e, c); } else { OverAnswer(s, e, c); }
    }
  }

  lemma StepKept(s: State, e: Event)
    requires Inv(s) && Enabled(s, e)
    ensures Inv(Apply(s, e))
  {
    if Over(s) {
      OverKept(s, e);
      return;
    }
    match e {
      case Kill(c) => ContextKept(s, s.dead + {c}, s.phase);
      case CancelScheduler => ContextKept(s, s.dead, Draining);
      case Stop => StopKept(s);
      case Start(w) => StartKept(s, w);
      case Finish(w) => FinishKept(s, w);
      case Enqueue(_) => SharedStepKept(s, e);
      case EnqueueFails(_) => SharedStepKept(s, e);
      case WithdrawTask(_) => SharedStepKept(s, e);
      case NotifyOne(_) => SharedStepKept(s, e);
      case Release(_) => SharedStepKept(s, e);
      case Poll(_) => WorkerStepKept(s, e);
      case ChooseHigh(_) => WorkerStepKept(s, e);
      case ChooseNormal(_) => WorkerStepKept(s, e);
      case Exit(_) => WorkerStepKept(s, e);
      case Execute(_, _) => AnswerStepKept(s, e);
      case Deliver(_) => AnswerStepKept(s, e);
      case SkipDead(_) => AnswerStepKept(s, e);
      case _ => SubmitterStepKept(s, e);
    }
  }

  lemma InitialInv(workers: int, capacity: int)
    ensures Inv(Initial(workers, capacity))
  {
    var s := Initial(workers, capacity);
    forall a | a in s.pcs ensures AgentOk(s, a) { }
    assert WaitingKeys(s.table) == {} && RunningKeys(s.table) == {};
  }

  lemma {:induction false} ReachesInv(s: State, events: seq<Event>, s': State)
    requires Inv(s) && Reaches(s, events, s')
    ensures Inv(s')
    decreases |events|
  {
    if events != [] {
      StepKept(s, events[0]);
      ReachesInv(Apply(s, events[0]), events[1..], s');
    }
  }

  // A state of a scheduler built with any worker count and capacity, after any run.
  ghost predicate Reachable(s: State) {
    exists workers: int, capacity: int, events :: Reaches(Initial(workers, capacity), events, s)
  }

  lemma ReachableInv(s: State)
    requires Reachable(s)
    ensures Inv(s)
  {
    var workers: int, capacity: int, events :| Reaches(Initial(workers, capacity), events, s);
    InitialInv(workers, capacity);
    ReachesInv(Initial(workers, capacity), events, s);
  }
}

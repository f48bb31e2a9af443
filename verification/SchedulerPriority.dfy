/**
  Which queue a task waits in, which task a worker takes first, and with which priority a task is
  queued again.
 */
module SchedulerPriority {
  import opened SchedulerModel
  import opened SchedulerInvariant
  import opened SchedulerSafety

  // ---- each queue holds the tasks of its priority ----

  ghost predicate Sorted(s: State) {
    && (forall t {:trigger t in s.high} :: t in s.high ==> t in s.table.heap && s.table.heap[t].priority.High?)
    && (forall t {:trigger t in s.normal} :: t in s.normal ==> t in s.table.heap && s.table.heap[t].priority.Normal?)
  }

  // Queues and tasks as they were, up to what does not concern priorities.
  lemma SortedSame(s: State, s': State)
    requires Sorted(s) && s'.high == s.high && s'.normal == s.normal
    requires forall t {:trigger t in s.table.heap} :: (t in s.high || t in s.normal) && t in s.table.heap ==>
               t in s'.table.heap && s'.table.heap[t].priority == s.table.heap[t].priority
    ensures Sorted(s')
  {
  }

  lemma SortedBySubmitter(s: State, e: Event)
    requires Running(s) && Sorted(s) && Enabled(s, e)
    requires e.CallSubmit? || e.AttachExisting? || e.TakeSlot? || e.GiveUp? || e.Insert? || e.GiveBack?
    ensures Sorted(Apply(s, e))
  {
    hide Sorted, Running;
    SortedHeap(s);
    SortedSame(s, Apply(s, e));
  }

  lemma SortedHeap(s: State)
    requires Sorted(s)
    ensures forall t :: t in s.high || t in s.normal ==> t in s.table.heap
  {
  }

  lemma SortedByEnqueue(s: State, a: Agent)
    requires Sorted(s) && Enabled(s, Enqueue(a))
    ensures Sorted(EnqueueStep(s, a))
  {
  }

  lemma TailOf(q: seq<TaskId>)
    ensures q != [] ==> forall t {:trigger t in q[1..]} :: t in q[1..] ==> t in q
  {
  }

  lemma SortedByTake(s: State, e: Event)
    requires Sorted(s) && Enabled(s, e) && (e.Poll? || e.ChooseHigh? || e.ChooseNormal?)
    ensures Sorted(Apply(s, e))
  {
    TailOf(s.high);
    TailOf(s.normal);
  }

  lemma SortedByOthers(s: State, e: Event)
    requires Sorted(s) && Enabled(s, e)
    requires e.EnqueueFails? || e.WithdrawTask? || e.NotifyOne? || e.Release? || e.Exit? || e.Execute? || e.Deliver? || e.SkipDead?
             || e.Kill? || e.CancelScheduler?
    ensures Sorted(Apply(s, e))
  {
    hide Sorted, Moved;
    SortedHeap(s);
    SortedSame(s, Apply(s, e));
  }

  lemma SortedByStart(s: State, w: nat)
    requires Sorted(s) && Enabled(s, Start(w))
    ensures Sorted(StartStep(s, w))
  {
    hide Sorted, Moved, Live, Stale;
    SortedHeap(s);
    SortedSame(s, StartStep(s, w));
  }

  // The task that is queued again is in no queue when its priority changes.
  lemma SortedByFinish(s: State, w: nat)
    requires Running(s) && Sorted(s) && Enabled(s, Finish(w))
    ensures Sorted(FinishStep(s, w))
  {
    hide Sorted, Moved, Live;
    var t := s.pcs[Worker(w)].task;
    assert AgentOk(s, Worker(w)) && TaskOk(s, t);
    assert t !in s.high && t !in s.normal;
    hide Running;
    SortedHeap(s);
    SortedSame(s, FinishStep(s, w));
  }

  lemma SortedKept(s: State, e: Event)
    requires Running(s) && Sorted(s) && Enabled(s, e) && !e.Stop?
    ensures Sorted(Apply(s, e))
  {
    hide Running, Sorted;
    if e.CallSubmit? || e.AttachExisting? || e.TakeSlot? || e.GiveUp? || e.Insert? || e.GiveBack? {
      SortedBySubmitter(s, e);
    } else if e.Enqueue? {
      SortedByEnqueue(s, e.a);
    } else if e.Poll? || e.ChooseHigh? || e.ChooseNormal? {
      SortedByTake(s, e);
    } else if e.Start? {
      SortedByStart(s, e.w);
    } else if e.Finish? {
      SortedByFinish(s, e.w);
    } else {
      SortedByOthers(s, e);
    }
  }

  lemma {:induction false} ReachesSorted(s: State, events: seq<Event>, s': State)
    requires Inv(s) && (Running(s) ==> Sorted(s)) && Reaches(s, events, s')
    ensures Running(s') ==> Sorted(s')
    decreases |events|
  {
    hide Sorted;
    if events != [] {
      StepKept(s, events[0]);
      if Running(s) && !events[0].Stop? { SortedKept(s, events[0]); }
      if Over(s) { OverKept(s, events[0]); }
      ReachesSorted(Apply(s, events[0]), events[1..], s');
    }
  }

  // Until Close drops the table: in the high queue wait tasks of high priority only, and in the normal
  // queue none of them.
  lemma QueuesByPriority(s: State)
    requires Reachable(s) && s.phase != Stopped
    ensures forall t :: t in s.high ==> t in s.table.heap && s.table.heap[t].priority.High?
    ensures forall t :: t in s.normal ==> t in s.table.heap && s.table.heap[t].priority.Normal?
  {
    var workers: int, capacity: int, events :| Reaches(Initial(workers, capacity), events, s);
    InitialInv(workers, capacity);
    ReachesSorted(Initial(workers, capacity), events, s);
    ReachableInv(s);
  }

  // A task that is queued goes behind those of its own priority.
  lemma QueuedLast(s: State, a: Agent)
    requires Enabled(s, Enqueue(a))
    ensures var t, s' := s.pcs[a].task, Apply(s, Enqueue(a));
            if s.table.heap[t].priority.High? then s'.high == s.high + [t] && s'.normal == s.normal
            else s'.normal == s.normal + [t] && s'.high == s.high
  {
  }

  ghost predicate QueuedHigh(s: State, t: TaskId) {
    (t in s.high || t in s.normal) && t in s.table.heap && s.table.heap[t].priority.High?
  }

  // A worker that asks for work takes a task of high priority whenever one is queued, the one queued
  // first; otherwise it waits for either queue.
  lemma HighFirst(s: State, w: nat)
    requires Reachable(s) && s.phase != Stopped && Enabled(s, Poll(w))
    ensures var s' := Apply(s, Poll(w));
            if exists t :: QueuedHigh(s, t)
            then && s.high != [] && QueuedHigh(s, s.high[0])
                 && s'.pcs[Worker(w)] == Starting(s.high[0]) && s'.high == s.high[1..] && s'.normal == s.normal
            else s'.pcs[Worker(w)] == Choosing && s'.high == s.high == [] && s'.normal == s.normal
  {
    QueuesByPriority(s);
    if s.high != [] {
      assert QueuedHigh(s, s.high[0]);
    }
  }

  // ---- the priority of a task ----

  // What those who joined during the execution have asked for.
  ghost predicate NextOk(s: State, t: TaskId) {
    t in s.table.heap ==>
      && (forall c {:trigger c in s.table.heap[t].nextWaiters} :: c in s.table.heap[t].nextWaiters ==> c in s.requests)
      && (s.table.heap[t].nextPriority.High? <==> AskedHigh(s, s.table.heap[t].nextWaiters))
  }

  ghost predicate AskedHigh(s: State, cs: seq<Call>) {
    exists c :: c in cs && c in s.requests && s.requests[c].priority.High?
  }

  lemma AskedSame(s: State, s': State, cs: seq<Call>)
    requires forall c {:trigger c in cs} :: c in cs ==> c in s.requests && c in s'.requests && s'.requests[c] == s.requests[c]
    ensures AskedHigh(s', cs) <==> AskedHigh(s, cs)
  {
    if AskedHigh(s, cs) {
      var c :| c in cs && c in s.requests && s.requests[c].priority.High?;
      assert c in s'.requests;
    }
    if AskedHigh(s', cs) {
      var c :| c in cs && c in s'.requests && s'.requests[c].priority.High?;
      assert c in s.requests;
    }
  }

  lemma AskedMore(s: State, cs: seq<Call>, c: Call)
    requires c in s.requests
    ensures AskedHigh(s, cs + [c]) <==> AskedHigh(s, cs) || s.requests[c].priority.High?
  {
    if AskedHigh(s, cs) {
      var d :| d in cs && d in s.requests && s.requests[d].priority.High?;
      assert d in cs + [c];
    }
    assert c in cs + [c];
  }

  lemma NextByAttach(s: State, c: Call, next: Pc, t: TaskId)
    requires c in s.requests && s.requests[c].key in s.table.tasks && s.table.tasks[s.requests[c].key] in s.table.heap
    requires NextOk(s, t)
    ensures NextOk(AttachStep(s, c, next), t)
  {
    if t in s.table.heap {
      var s' := AttachStep(s, c, next);
      AskedSame(s, s', s.table.heap[t].nextWaiters);
      AskedMore(s', s.table.heap[t].nextWaiters, c);
    }
  }

  lemma NextByRegister(s: State, c: Call, u: TaskId, t: TaskId)
    requires c in s.requests && NextOk(s, t)
    ensures NextOk(RegisterStep(s, c, u), t)
  {
    var s' := RegisterStep(s, c, u);
    assert !AskedHigh(s', []);
    if t in s.table.heap && t != u { AskedSame(s, s', s.table.heap[t].nextWaiters); }
  }

  // The other steps leave the requests made and who joined during an execution, or end it.
  lemma NextSame(s: State, s': State, t: TaskId)
    requires NextOk(s, t) && (t in s'.table.heap ==> t in s.table.heap)
    requires forall c {:trigger c in s.requests} :: c in s.requests ==> c in s'.requests && s'.requests[c] == s.requests[c]
    requires t in s'.table.heap ==>
               || (s'.table.heap[t].nextWaiters == s.table.heap[t].nextWaiters && s'.table.heap[t].nextPriority == s.table.heap[t].nextPriority)
               || (s'.table.heap[t].nextWaiters == [] && s'.table.heap[t].nextPriority == Normal)
    ensures NextOk(s', t)
  {
    if t in s'.table.heap {
      assert !AskedHigh(s', []);
      AskedSame(s, s', s.table.heap[t].nextWaiters);
    }
  }

  lemma NextByOthers(s: State, e: Event, t: TaskId)
    requires Enabled(s, e) && NextOk(s, t) && !e.AttachExisting? && !e.Insert? && !e.Start? && !e.Finish?
    ensures NextOk(Apply(s, e), t)
  {
    hide NextOk, Moved, Attached, QueueOf;
    NextSame(s, Apply(s, e), t);
  }

  lemma NextByRun(s: State, w: nat, t: TaskId)
    requires NextOk(s, t)
    ensures Enabled(s, Start(w)) ==> NextOk(StartStep(s, w), t)
    ensures Enabled(s, Finish(w)) ==> NextOk(FinishStep(s, w), t)
  {
    hide NextOk, Moved, Live, Stale;
    if Enabled(s, Start(w)) { NextSame(s, StartStep(s, w), t); }
    if Enabled(s, Finish(w)) { NextSame(s, FinishStep(s, w), t); }
  }

  lemma NextKept(s: State, e: Event, t: TaskId)
    requires Enabled(s, e) && NextOk(s, t)
    ensures NextOk(Apply(s, e), t)
  {
    hide NextOk, AttachStep, RegisterStep, StartStep, FinishStep;
    if e.Start? || e.Finish? {
      NextByRun(s, e.w, t);
    } else if e.AttachExisting? || e.Insert? {
      if s.requests[e.c].key in s.table.tasks && s.table.tasks[s.requests[e.c].key] in s.table.heap {
        NextByAttach(s, e.c, if e.AttachExisting? then Accepted else GivingBack, t);
      } else if e.Insert? {
        NextByRegister(s, e.c, e.spare, t);
      } else {
        NextSame(s, Apply(s, e), t);
      }
    } else {
      NextByOthers(s, e, t);
    }
  }

  lemma {:induction false} ReachesNext(s: State, events: seq<Event>, s': State)
    requires (forall t {:trigger NextOk(s, t)} :: NextOk(s, t)) && Reaches(s, events, s')
    ensures forall t {:trigger NextOk(s', t)} :: NextOk(s', t)
    decreases |events|
  {
    hide NextOk, Apply, Enabled;
    if events != [] {
      forall t {:trigger NextOk(Apply(s, events[0]), t)} ensures NextOk(Apply(s, events[0]), t) {
        assert NextOk(s, t);
        NextKept(s, events[0], t);
      }
      ReachesNext(Apply(s, events[0]), events[1..], s');
    }
  }

  lemma InitialNext(workers: int, capacity: int)
    ensures forall t {:trigger NextOk(Initial(workers, capacity), t)} :: NextOk(Initial(workers, capacity), t)
  {
  }

  lemma AskedNext(s: State, t: TaskId)
    requires (forall u {:trigger NextOk(s, u)} :: NextOk(s, u)) && t in s.table.heap
    ensures s.table.heap[t].nextPriority.High? <==>
              exists c :: c in s.table.heap[t].nextWaiters && c in s.requests && s.requests[c].priority.High?
  {
    assert NextOk(s, t);
  }

  // A new task has the priority of the call that made it.
  lemma RegisteredPriority(s: State, c: Call, t: TaskId)
    requires Reachable(s) && s.phase != Stopped && Enabled(s, Insert(c, t)) && s.requests[c].key !in s.table.tasks
    ensures var s' := Apply(s, Insert(c, t));
            s'.pcs[Submitter(c)] == Enqueueing(t, []) && t in s'.table.heap && s'.table.heap[t].priority == s.requests[c].priority
  {
  }

  // A task that is queued again after its execution is of high priority exactly if one of those who
  // joined during the execution asked for that.
  lemma RenewedPriority(s: State, w: nat)
    requires Reachable(s) && Enabled(s, Finish(w))
    ensures var t, s' := s.pcs[Worker(w)].task, Apply(s, Finish(w));
            s'.pcs[Worker(w)].Enqueueing? ==>
              && t in s'.table.heap && s'.pcs[Worker(w)].task == t
              && (s'.table.heap[t].priority.High? <==>
                    exists c :: c in s.table.heap[t].nextWaiters && c in s.requests && s.requests[c].priority.High?)
  {
    hide Moved, Live, NextOk, Initial, Reaches;
    var workers: int, capacity: int, events :| Reaches(Initial(workers, capacity), events, s);
    InitialNext(workers, capacity);
    ReachesNext(Initial(workers, capacity), events, s);
    AskedNext(s, s.pcs[Worker(w)].task);
  }

  // And whoever joins a running task is in that list.
  lemma JoinsNext(s: State, c: Call)
    requires Enabled(s, AttachExisting(c)) && s.requests[c].key in s.table.tasks && s.table.tasks[s.requests[c].key] in s.table.heap
    ensures var t, s' := s.table.tasks[s.requests[c].key], Apply(s, AttachExisting(c));
            if s.table.heap[t].running then s'.table.heap[t].nextWaiters == s.table.heap[t].nextWaiters + [c]
            else s'.table.heap[t].waiters == s.table.heap[t].waiters + [c] && s'.table.heap[t].priority == s.table.heap[t].priority
  {
  }
}

/**
  What the scheduler's own cancellation does to waiters that have been taken in: which steps drop
  one, exactly, before and after Close has dropped the table, and runs in which one is dropped.
 */
module SchedulerShutdown {
  import opened SchedulerModel
  import opened SchedulerInvariant
  import opened SchedulerSafety

  // A waiter of a running task is about to be served, or has been answered, or has given up.
  ghost predicate ServedOk(s: State, t: TaskId) {
    t in s.table.heap && s.table.heap[t].running && t in s.owner && s.owner[t].Held? && s.owner[t].agent in s.pcs ==>
      forall c {:trigger c in s.table.heap[t].waiters} :: c in s.table.heap[t].waiters ==>
        c in Served(s.pcs[s.owner[t].agent]) || (c in s.sent && s.sent[c] != []) || c in s.dead
  }

  ghost predicate AllServed(s: State) {
    forall t {:trigger ServedOk(s, t)} :: t in s.table.heap ==> ServedOk(s, t)
  }

  lemma ServedBySubmitter(s: State, e: Event, t: TaskId)
    requires Running(s) && Enabled(s, e) && ServedOk(s, t) && t in Apply(s, e).table.heap
    requires e.CallSubmit? || e.TakeSlot? || e.GiveUp? || e.GiveBack?
    ensures ServedOk(Apply(s, e), t)
  {
    assert TaskOk(s, t);
  }

  lemma ServedByJoining(s: State, e: Event, t: TaskId)
    requires Running(s) && Enabled(s, e) && ServedOk(s, t) && t in Apply(s, e).table.heap
    requires e.AttachExisting? || e.Insert?
    ensures ServedOk(Apply(s, e), t)
  {
    assert t in s.table.heap ==> TaskOk(s, t);
  }

  lemma ServedByShared(s: State, e: Event, t: TaskId)
    requires Running(s) && Enabled(s, e) && ServedOk(s, t) && t in s.table.heap
    requires e.Enqueue? || e.EnqueueFails? || e.WithdrawTask? || e.NotifyOne? || e.Release?
    ensures ServedOk(Apply(s, e), t)
  {
    assert TaskOk(s, t) && AgentOk(s, e.a);
  }

  lemma ServedByWorker(s: State, e: Event, t: TaskId)
    requires Running(s) && Enabled(s, e) && ServedOk(s, t) && t in s.table.heap
    requires e.Poll? || e.ChooseHigh? || e.ChooseNormal? || e.Exit? || e.Execute?
    ensures ServedOk(Apply(s, e), t)
  {
    assert TaskOk(s, t) && AgentOk(s, Worker(e.w));
  }

  lemma ServedByDelivery(s: State, e: Event, t: TaskId)
    requires Running(s) && Enabled(s, e) && ServedOk(s, t) && t in s.table.heap
    requires e.Deliver? || e.SkipDead? || e.Kill? || e.CancelScheduler?
    ensures ServedOk(Apply(s, e), t)
  {
    assert TaskOk(s, t);
    if e.Deliver? || e.SkipDead? {
      var p := s.pcs[Worker(e.w)];
      assert AgentOk(s, Worker(e.w));
      assert p.served == [p.served[0]] + p.served[1..];
    }
  }

  lemma ServedByStart(s: State, w: nat, t: TaskId)
    requires Running(s) && Enabled(s, Start(w)) && ServedOk(s, t) && t in s.table.heap
    ensures ServedOk(StartStep(s, w), t)
  {
    assert TaskOk(s, t) && AgentOk(s, Worker(w));
  }

  lemma ServedByFinish(s: State, w: nat, t: TaskId)
    requires Running(s) && Enabled(s, Finish(w)) && ServedOk(s, t) && t in s.table.heap
    ensures ServedOk(FinishStep(s, w), t)
  {
    assert TaskOk(s, t) && AgentOk(s, Worker(w));
  }

  lemma ServedKept(s: State, e: Event)
    requires Running(s) && Enabled(s, e) && AllServed(s) && !e.Stop?
    ensures AllServed(Apply(s, e))
  {
    forall t | t in Apply(s, e).table.heap ensures ServedOk(Apply(s, e), t) {
      assert ServedOk(s, t);
      if e.CallSubmit? || e.TakeSlot? || e.GiveUp? || e.GiveBack? {
        ServedBySubmitter(s, e, t);
      } else if e.AttachExisting? || e.Insert? {
        ServedByJoining(s, e, t);
      } else if e.Start? {
        ServedByStart(s, e.w, t);
      } else if e.Finish? {
        ServedByFinish(s, e.w, t);
      } else if e.Enqueue? || e.EnqueueFails? || e.WithdrawTask? || e.NotifyOne? || e.Release? {
        ServedByShared(s, e, t);
      } else if e.Poll? || e.ChooseHigh? || e.ChooseNormal? || e.Exit? || e.Execute? {
        ServedByWorker(s, e, t);
      } else {
        ServedByDelivery(s, e, t);
      }
    }
  }

  lemma {:induction false} ReachesServed(s: State, events: seq<Event>, s': State)
    requires Inv(s) && (Running(s) ==> AllServed(s)) && Reaches(s, events, s')
    ensures Running(s') ==> AllServed(s')
    decreases |events|
  {
    if events != [] {
      StepKept(s, events[0]);
      if Running(s) && !events[0].Stop? { ServedKept(s, events[0]); }
      if Over(s) { OverKept(s, events[0]); }
      ReachesServed(Apply(s, events[0]), events[1..], s');
    }
  }

  lemma ReachableServed(s: State)
    requires Reachable(s)
    ensures Running(s) ==> AllServed(s)
  {
    var workers: int, capacity: int, events :| Reaches(Initial(workers, capacity), events, s);
    InitialInv(workers, capacity);
    ReachesServed(Initial(workers, capacity), events, s);
  }

  // ---- which steps drop a waiter ----

  ghost predicate Owed(s: State, c: Call) {
    exists a :: a in s.pcs && s.pcs[a].Notifying? && c in s.pcs[a].owed
  }

  ghost predicate Kept(s: State, c: Call) {
    c in s.sent && (s.sent[c] != [] || Attached(s.table, c) || Owed(s, c))
  }

  // Until `Close` drops the table: a task withdrawn because its enqueue failed takes with it the
  // waiters that joined it since; a finished task is not queued again for the waiters that joined it
  // while it ran.
  ghost predicate DropsOpen(s: State, e: Event, c: Call)
    requires Enabled(s, e)
  {
    || (e.WithdrawTask? && c in s.table.heap[s.pcs[e.a].task].waiters && c !in s.pcs[e.a].owed)
    || (e.Finish? && c in s.table.heap[s.pcs[Worker(e.w)].task].nextWaiters)
  }

  // Afterwards: a task withdrawn takes with it whoever waits for its key, in whichever task.
  ghost predicate DropsClosed(s: State, e: Event, c: Call)
    requires Enabled(s, e)
  {
    e.WithdrawTask? && c in s.requests && s.table.heap[s.pcs[e.a].task].key == s.requests[c].key
  }

  ghost predicate Drops(s: State, e: Event, c: Call)
    requires Enabled(s, e)
  {
    if s.phase == Stopped then DropsClosed(s, e, c) else DropsOpen(s, e, c)
  }

  ghost predicate AttachedAt(s: State, t: TaskId, c: Call) {
    s.table.Registered(t) && (c in s.table.heap[t].waiters || c in s.table.heap[t].nextWaiters)
  }

  lemma AttachedIs(s: State, c: Call)
    requires Running(s)
    ensures Attached(s.table, c) <==> exists t :: AttachedAt(s, t, c)
  {
    if Attached(s.table, c) {
      var k :| k in s.table.tasks && s.table.tasks[k] in s.table.heap
               && (c in s.table.heap[s.table.tasks[k]].waiters || c in s.table.heap[s.table.tasks[k]].nextWaiters);
      assert KeyOk(s, k);
      assert AttachedAt(s, s.table.tasks[k], c);
    }
    if t :| AttachedAt(s, t, c) { assert s.table.heap[t].key in s.table.tasks; }
  }

  // An unanswered live waiter is attached to one task, in the list its place names.
  lemma AttachedOnce(s: State, t: TaskId, c: Call)
    requires Running(s) && ServedOk(s, t) && AttachedAt(s, t, c)
    requires c in s.sent && s.sent[c] == [] && c !in s.dead
    ensures c in s.place && t in s.owner && (s.place[c] == AtTask(t) || s.place[c] == AtNext(t) || s.place[c].InFlight?)
    ensures s.place[c].InFlight? ==> s.owner[t].Held? && s.place[c].agent == s.owner[t].agent
    ensures s.place[c].InFlight? ==>
              s.table.heap[t].running && s.owner[t].Held? && s.owner[t].agent in s.pcs && c in Served(s.pcs[s.owner[t].agent])
    ensures s.place[c].AtTask? ==> !s.table.heap[t].running && c in s.table.heap[t].waiters
    ensures s.place[c].AtNext? ==> s.table.heap[t].running && c in s.table.heap[t].nextWaiters
  {
    assert TaskOk(s, t);
    if s.table.heap[t].running && c !in s.table.heap[t].nextWaiters {
      assert AgentOk(s, s.owner[t].agent);
    }
  }

  // The steps that do not move `a`.
  ghost predicate Moves(e: Event, a: Agent) {
    || (e.NotifyOne? && e.a == a) || (e.Release? && e.a == a) || e.Stop?
  }

  lemma OwedStays(s: State, e: Event, c: Call, a: Agent)
    requires Running(s) && Enabled(s, e) && a in s.pcs && s.pcs[a].Notifying? && c in s.pcs[a].owed && !Moves(e, a)
    ensures a in Apply(s, e).pcs && Apply(s, e).pcs[a] == s.pcs[a]
  {
    assert AgentOk(s, a);
  }

  lemma OwedNotDropped(s: State, e: Event, c: Call, a: Agent)
    requires Running(s) && Enabled(s, e) && a in s.pcs && s.pcs[a].Notifying? && c in s.pcs[a].owed
    ensures !DropsOpen(s, e, c)
  {
    assert AgentOk(s, a) && c in Served(s.pcs[a]);
    if e.WithdrawTask? {
      assert AgentOk(s, e.a) && TaskOk(s, s.pcs[e.a].task);
    } else if e.Finish? {
      assert AgentOk(s, Worker(e.w)) && TaskOk(s, s.pcs[Worker(e.w)].task);
    }
  }

  lemma OwedKept(s: State, e: Event, c: Call, a: Agent)
    requires Running(s) && Enabled(s, e) && a in s.pcs && s.pcs[a].Notifying? && c in s.pcs[a].owed
    requires c in s.sent && s.sent[c] == [] && c in Apply(s, e).sent
    ensures Kept(Apply(s, e), c)
  {
    var s' := Apply(s, e);
    assert AgentOk(s, a);
    if !Moves(e, a) {
      OwedStays(s, e, c, a);
    } else if e.NotifyOne? {
      if s.pcs[a].owed[0] == c { assert s'.sent[c] == [Canceled]; } else { assert c in s'.pcs[a].owed; }
    }
  }

  lemma AttachedByJoin(s: State, e: Event, t: TaskId, c: Call)
    requires Running(s) && Enabled(s, e) && AttachedAt(s, t, c) && (e.CallSubmit? || e.AttachExisting? || e.Insert?)
    ensures AttachedAt(Apply(s, e), t, c)
  {
  }

  lemma AttachedByOthers(s: State, e: Event, t: TaskId, c: Call)
    requires Enabled(s, e) && AttachedAt(s, t, c)
    requires !e.WithdrawTask? && !e.Start? && !e.Finish? && !e.Stop? && !e.CallSubmit? && !e.AttachExisting? && !e.Insert?
    ensures AttachedAt(Apply(s, e), t, c)
  {
    assert Apply(s, e).table == s.table;
  }

  lemma AttachedByStart(s: State, w: nat, t: TaskId, c: Call)
    requires Running(s) && Enabled(s, Start(w)) && AttachedAt(s, t, c) && c !in s.dead
    ensures AttachedAt(StartStep(s, w), t, c)
  {
    var u := s.pcs[Worker(w)].task;
    assert TaskOk(s, t) && AgentOk(s, Worker(w)) && TaskOk(s, u);
    assert c in Live(s.table.heap[u].waiters, s.dead) <==> c in s.table.heap[u].waiters;
  }

  lemma NotOwed(s: State, c: Call)
    requires Running(s) && c in s.place && !s.place[c].InFlight?
    ensures forall b :: b in s.pcs && s.pcs[b].Notifying? ==> c !in s.pcs[b].owed
  {
    forall b | b in s.pcs && s.pcs[b].Notifying? ensures c !in s.pcs[b].owed {
      assert AgentOk(s, b) && Served(s.pcs[b]) == s.pcs[b].owed;
    }
  }

  lemma WithdrawDrops(s: State, a: Agent, t: TaskId, c: Call)
    requires Running(s) && AllServed(s) && Enabled(s, WithdrawTask(a)) && AttachedAt(s, t, c)
    requires c in s.sent && s.sent[c] == [] && c !in s.dead
    ensures Kept(WithdrawStep(s, a), c) <==> !DropsOpen(s, WithdrawTask(a), c)
  {
    var u := s.pcs[a].task;
    var s' := WithdrawStep(s, a);
    assert TaskOk(s, t) && AgentOk(s, a) && TaskOk(s, u) && ServedOk(s, t);
    AttachedOnce(s, t, c);
    if t != u {
      assert s'.table.heap[t].key in s'.table.tasks;
    } else if c in s.pcs[a].owed {
      assert c in s'.pcs[a].owed;
    } else {
      if Attached(s'.table, c) {
        var k :| k in s'.table.tasks && s'.table.tasks[k] in s'.table.heap
                 && (c in s'.table.heap[s'.table.tasks[k]].waiters || c in s'.table.heap[s'.table.tasks[k]].nextWaiters);
        assert KeyOk(s, k) && ServedOk(s, s.table.tasks[k]);
        AttachedOnce(s, s.table.tasks[k], c);
      }
      NotOwed(s, c);
    }
  }

  lemma FinishDrops(s: State, w: nat, t: TaskId, c: Call)
    requires Running(s) && s.phase == Draining && AllServed(s) && Enabled(s, Finish(w)) && AttachedAt(s, t, c)
    requires c in s.sent && s.sent[c] == [] && c !in s.dead
    ensures Kept(FinishStep(s, w), c) <==> !DropsOpen(s, Finish(w), c)
  {
    var u := s.pcs[Worker(w)].task;
    var s' := FinishStep(s, w);
    assert TaskOk(s, t) && AgentOk(s, Worker(w)) && TaskOk(s, u) && ServedOk(s, t);
    AttachedOnce(s, t, c);
    if t != u {
      assert s'.table.heap[t].key in s'.table.tasks;
    } else {
      if Attached(s'.table, c) {
        var k :| k in s'.table.tasks && s'.table.tasks[k] in s'.table.heap
                 && (c in s'.table.heap[s'.table.tasks[k]].waiters || c in s'.table.heap[s'.table.tasks[k]].nextWaiters);
        assert KeyOk(s, k) && ServedOk(s, s.table.tasks[k]);
        AttachedOnce(s, s.table.tasks[k], c);
      }
      NotOwed(s, c);
    }
  }

  lemma AttachedDrops(s: State, e: Event, t: TaskId, c: Call)
    requires Running(s) && AllServed(s) && s.phase == Draining && Enabled(s, e) && AttachedAt(s, t, c)
    requires c in s.sent && s.sent[c] == [] && c !in s.dead && !e.Stop? && c in Apply(s, e).sent
    ensures Kept(Apply(s, e), c) <==> !DropsOpen(s, e, c)
  {
    if e.WithdrawTask? {
      WithdrawDrops(s, e.a, t, c);
    } else if e.Finish? {
      FinishDrops(s, e.w, t, c);
    } else {
      if e.Start? {
        AttachedByStart(s, e.w, t, c);
      } else if e.CallSubmit? || e.AttachExisting? || e.Insert? {
        AttachedByJoin(s, e, t, c);
      } else {
        AttachedByOthers(s, e, t, c);
      }
      assert Apply(s, e).table.heap[t].key in Apply(s, e).table.tasks;
    }
  }

  lemma SentStays(s: State, e: Event, c: Call)
    requires Enabled(s, e) && c in s.sent
    ensures c in Apply(s, e).sent
  {
    hide Live, Joined, Moved, Attach, Register, Withdraw, Begin, Retire, Renew, Attached, QueueOf, Stale;
    match e {
      case Start(w) =>
      case Finish(w) =>
      case WithdrawTask(a) =>
      case NotifyOne(a) =>
      case Enqueue(a) =>
      case _ =>
    }
  }

  lemma DroppedOpen(s: State, e: Event, c: Call)
    requires Reachable(s) && s.phase == Draining && Enabled(s, e)
    requires c !in s.dead && Kept(s, c) && s.sent[c] == []
    ensures Kept(Apply(s, e), c) <==> !DropsOpen(s, e, c)
  {
    ReachableInv(s);
    ReachableServed(s);
    SentStays(s, e, c);
    if Owed(s, c) {
      var a :| a in s.pcs && s.pcs[a].Notifying? && c in s.pcs[a].owed;
      OwedNotDropped(s, e, c, a);
      OwedKept(s, e, c, a);
    } else if e.Stop? {
      assert Apply(s, e).sent[c] == [Canceled];
    } else {
      AttachedIs(s, c);
      var t :| AttachedAt(s, t, c);
      AttachedDrops(s, e, t, c);
    }
  }

  // ---- after Close has dropped the table ----

  // The task of a key is one of its own, and so are the waiters of that task.
  ghost predicate KeyClosed(s: State, k: Key) {
    && KeyOk(s, k)
    && (forall c {:trigger c in s.table.heap[s.table.tasks[k]].waiters} :: c in s.table.heap[s.table.tasks[k]].waiters ==>
          c in s.requests && s.requests[c].key == k)
    && s.table.heap[s.table.tasks[k]].nextWaiters == [] && !s.table.heap[s.table.tasks[k]].running
  }

  ghost predicate Closed(s: State) {
    Over(s) && forall k {:trigger KeyClosed(s, k)} :: k in s.table.tasks ==> KeyClosed(s, k)
  }

  lemma ClosedJoin(s: State, e: Event, k: Key)
    requires Closed(s) && Enabled(s, e) && (e.CallSubmit? || e.AttachExisting? || e.Insert?) && k in Apply(s, e).table.tasks
    ensures KeyClosed(Apply(s, e), k)
  {
    assert k in s.table.tasks ==> KeyClosed(s, k);
    if e.AttachExisting? || e.Insert? {
      assert s.requests[e.c].key in s.table.tasks ==> KeyClosed(s, s.requests[e.c].key);
    }
  }

  lemma ClosedOther(s: State, e: Event, k: Key)
    requires Closed(s) && Enabled(s, e) && ActsInOver(e) && k in Apply(s, e).table.tasks
    requires !e.CallSubmit? && !e.AttachExisting? && !e.Insert?
    ensures KeyClosed(Apply(s, e), k)
  {
    assert k in s.table.tasks ==> KeyClosed(s, k);
  }

  lemma ClosedKept(s: State, e: Event)
    requires Closed(s) && Enabled(s, e)
    ensures Closed(Apply(s, e))
  {
    OverKept(s, e);
    OverEvents(s, e);
    forall k | k in Apply(s, e).table.tasks ensures KeyClosed(Apply(s, e), k) {
      if e.CallSubmit? || e.AttachExisting? || e.Insert? { ClosedJoin(s, e, k); } else { ClosedOther(s, e, k); }
    }
  }

  lemma StopCloses(s: State)
    requires Inv(s) && Enabled(s, Stop)
    ensures Closed(StopStep(s))
  {
    StepKept(s, Stop);
  }

  lemma PhaseStays(s: State, e: Event)
    requires Inv(s) && Enabled(s, e) && !e.Stop? && s.phase != Stopped
    ensures Apply(s, e).phase != Stopped
  {
    hide Live, Joined, Moved, Attach, Register, Withdraw, Begin, Retire, Renew, Attached, QueueOf, Stale, Inv;
  }

  lemma {:induction false} ReachesClosed(s: State, events: seq<Event>, s': State)
    requires Inv(s) && (s.phase == Stopped ==> Closed(s)) && Reaches(s, events, s')
    ensures s'.phase == Stopped ==> Closed(s')
    decreases |events|
  {
    if events != [] {
      StepKept(s, events[0]);
      if s.phase == Stopped {
        ClosedKept(s, events[0]);
      } else if events[0].Stop? {
        StopCloses(s);
      } else {
        PhaseStays(s, events[0]);
      }
      ReachesClosed(Apply(s, events[0]), events[1..], s');
    }
  }

  lemma ReachableClosed(s: State)
    requires Reachable(s) && s.phase == Stopped
    ensures Closed(s)
  {
    var workers: int, capacity: int, events :| Reaches(Initial(workers, capacity), events, s);
    InitialInv(workers, capacity);
    ReachesClosed(Initial(workers, capacity), events, s);
  }

  lemma ClosedAttached(s: State, c: Call)
    requires Closed(s)
    ensures Attached(s.table, c) <==>
              && c in s.requests && s.requests[c].key in s.table.tasks && s.table.tasks[s.requests[c].key] in s.table.heap
              && c in s.table.heap[s.table.tasks[s.requests[c].key]].waiters
  {
    if Attached(s.table, c) {
      var k :| k in s.table.tasks && s.table.tasks[k] in s.table.heap
               && (c in s.table.heap[s.table.tasks[k]].waiters || c in s.table.heap[s.table.tasks[k]].nextWaiters);
      assert KeyClosed(s, k);
    }
  }

  lemma ClosedNotOwed(s: State, c: Call)
    requires Closed(s)
    ensures !Owed(s, c)
  {
    forall a | a in s.pcs && s.pcs[a].Notifying? ensures s.pcs[a].owed == [] { assert ExitedOk(s, a); }
  }

  // Nobody is answered any more.
  lemma ClosedSent(s: State, e: Event, c: Call)
    requires Closed(s) && Enabled(s, e)
    ensures c in s.sent ==> c in Apply(s, e).sent
    ensures c in Apply(s, e).sent ==> Apply(s, e).sent[c] == if c in s.sent then s.sent[c] else []
  {
    hide Live, Joined, Moved, Attach, Register, Withdraw, Begin, Retire, Renew, Attached, QueueOf, Stale, Closed;
    ClosedOver(s);
    OverEvents(s, e);
    hide Over;
  }

  lemma ClosedOver(s: State)
    requires Closed(s)
    ensures Over(s)
  {
    hide Over, KeyClosed;
  }

  lemma ClosedJoined(s: State, e: Event, c: Call)
    requires Closed(s) && Enabled(s, e) && (e.CallSubmit? || e.AttachExisting? || e.Insert?) && Attached(s.table, c)
    ensures Attached(Apply(s, e).table, c)
  {
    ClosedAttached(s, c);
    var k := s.requests[c].key;
    assert KeyClosed(s, k);
    assert k in Apply(s, e).table.tasks;
  }

  lemma DroppedClosed(s: State, e: Event, c: Call)
    requires Reachable(s) && s.phase == Stopped && Enabled(s, e) && Kept(s, c) && s.sent[c] == []
    ensures Kept(Apply(s, e), c) <==> !DropsClosed(s, e, c)
  {
    ReachableClosed(s);
    ClosedKept(s, e);
    ClosedNotOwed(s, c);
    ClosedNotOwed(Apply(s, e), c);
    ClosedSent(s, e, c);
    OverEvents(s, e);
    ClosedAttached(s, c);
    ClosedAttached(Apply(s, e), c);
    if e.CallSubmit? || e.AttachExisting? || e.Insert? {
      ClosedJoined(s, e, c);
    } else if e.WithdrawTask? {
      ClosedWithdraws(s, e.a, c);
    } else {
      ClosedSame(s, e);
    }
  }

  lemma ClosedWithdraws(s: State, a: Agent, c: Call)
    requires Closed(s) && Enabled(s, WithdrawTask(a))
    ensures var s' := WithdrawStep(s, a);
            s'.requests == s.requests && s'.table.heap == s.table.heap && s'.table.tasks == s.table.tasks - {s.table.heap[s.pcs[a].task].key}
  {
  }

  lemma ClosedSame(s: State, e: Event)
    requires Closed(s) && Enabled(s, e) && ActsInOver(e) && !e.CallSubmit? && !e.AttachExisting? && !e.Insert? && !e.WithdrawTask?
    ensures Apply(s, e).table == s.table && Apply(s, e).requests == s.requests
  {
    hide Live, Joined, Moved, Attach, Register, Withdraw, Begin, Retire, Renew, Attached, QueueOf, Stale, Closed;
  }

  // After cancellation an accepted, live, unanswered waiter stays with the scheduler except at
  // exactly the steps `Drops` names.
  lemma DroppedExactly(s: State, e: Event, c: Call)
    requires Reachable(s) && s.phase != Open && Enabled(s, e)
    requires c !in s.dead && Kept(s, c) && s.sent[c] == []
    ensures Kept(Apply(s, e), c) <==> !Drops(s, e, c)
  {
    if s.phase == Stopped {
      DroppedClosed(s, e, c);
    } else {
      DroppedOpen(s, e, c);
    }
  }

  lemma {:induction false} SilentFrom(s: State, events: seq<Event>, s': State, c: Call)
    requires Closed(s) && Reaches(s, events, s')
    ensures c in s.sent ==> c in s'.sent
    ensures c in s'.sent ==> s'.sent[c] == if c in s.sent then s.sent[c] else []
    decreases |events|
  {
    if events != [] {
      ClosedKept(s, events[0]);
      ClosedSent(s, events[0], c);
      SilentFrom(Apply(s, events[0]), events[1..], s', c);
    }
  }

  // Whoever has no answer when Close has dropped the table, or submits later, never gets one: no run
  // from there answers anybody.
  lemma SilentAfterClose(s: State, events: seq<Event>, s': State, c: Call)
    requires Reachable(s) && s.phase == Stopped && Reaches(s, events, s')
    ensures c in s.sent ==> c in s'.sent
    ensures c in s'.sent ==> s'.sent[c] == if c in s.sent then s.sent[c] else []
  {
    ReachableClosed(s);
    SilentFrom(s, events, s', c);
  }

  lemma {:induction false} ReachesFurther(s: State, events: seq<Event>, s1: State, e: Event)
    requires Reaches(s, events, s1) && Enabled(s1, e)
    ensures Reaches(s, events + [e], Apply(s1, e))
    decreases |events|
  {
    if events != [] {
      ReachesFurther(Apply(s, events[0]), events[1..], s1, e);
      assert (events + [e])[1..] == events[1..] + [e];
    } else {
      assert Reaches(Apply(s, e), [], Apply(s, e));
      assert ([] + [e])[1..] == [];
    }
  }

  lemma Extend(s: State, e: Event) returns (s': State)
    requires Reachable(s) && Enabled(s, e)
    ensures Reachable(s') && s' == Apply(s, e)
  {
    var workers: int, capacity: int, events :| Reaches(Initial(workers, capacity), events, s);
    ReachesFurther(Initial(workers, capacity), events, s, e);
    s' := Apply(s, e);
  }

  // A run in which call 1 joins call 0's task, the scheduler is cancelled before call 0 has
  // queued it, and call 1, accepted, waits for an answer nobody will send.
  function LossEvent(n: nat): Event {
    match n
    case 0 => CallSubmit(0, "k", Normal)
    case 1 => AttachExisting(0)
    case 2 => TakeSlot(0)
    case 3 => Insert(0, 0)
    case 4 => CallSubmit(1, "k", Normal)
    case 5 => AttachExisting(1)
    case 6 => CancelScheduler
    case 7 => EnqueueFails(Submitter(0))
    case _ => WithdrawTask(Submitter(0))
  }

  ghost predicate CallAt(s: State, c: Call, p: Pc) {
    At(s, Submitter(c), p) && c in s.requests && s.requests[c].key == "k" && c in s.sent && s.sent[c] == []
  }

  ghost predicate NotYet(s: State, c: Call) {
    Submitter(c) !in s.pcs && c !in s.requests && c !in s.sent && c !in s.place
  }

  ghost predicate LossStage(n: nat, s: State) {
    && s.dead == {} && s.phase == (if n < 7 then Open else Draining) && s.capacity == 1
    && (n < 3 ==> s.slots == 0)
    && (if n == 0 then NotYet(s, 0)
        else CallAt(s, 0, if n == 1 then Attaching else if n == 2 then Acquiring else if n == 3 then Inserting
                          else if n < 8 then Enqueueing(0, []) else if n == 8 then Withdrawing(0, []) else Notifying([])))
    && (if n < 5 then NotYet(s, 1) else CallAt(s, 1, if n == 5 then Attaching else Accepted))
    && s.table.tasks == (if 4 <= n < 9 then map["k" := 0] else map[])
    && (if n < 4 then 0 !in s.table.heap else 0 in s.table.heap && s.table.heap[0].key == "k")
    && (forall a {:trigger s.pcs[a]} :: a in s.pcs && s.pcs[a].Notifying? ==> s.pcs[a].owed == [])
  }

  lemma LossStepEarly(n: nat, s: State)
    requires LossStage(n, s) && n < 4
    ensures Enabled(s, LossEvent(n)) && LossStage(n + 1, Apply(s, LossEvent(n)))
  {
  }

  lemma LossStepLate(n: nat, s: State)
    requires LossStage(n, s) && 4 <= n < 9
    ensures Enabled(s, LossEvent(n)) && LossStage(n + 1, Apply(s, LossEvent(n)))
  {
  }

  lemma {:induction false} LossRun(n: nat) returns (s: State)
    requires n <= 9
    ensures Reachable(s) && LossStage(n, s)
  {
    if n == 0 {
      s := Initial(1, 1);
      assert Reaches(s, [], s);
    } else {
      s := LossRun(n - 1);
      if n - 1 < 4 { LossStepEarly(n - 1, s); } else { LossStepLate(n - 1, s); }
      s := Extend(s, LossEvent(n - 1));
    }
  }

  lemma WaiterLostAtShutdown() returns (s: State)
    ensures Reachable(s) && At(s, Submitter(1), Accepted) && 1 !in s.dead && !Kept(s, 1)
  {
    s := LossRun(9);
  }

  // ---- a run that loses a waiter after Close ----

  // Call 0 is about to queue its task when the scheduler is closed; call 1 finds the table empty, gets
  // a slot and a place in the queue all the same and is accepted; then call 0 withdraws the task of
  // the key, which by now is call 1's.
  function LateEvent(n: nat): Event {
    match n
    case 0 => CallSubmit(0, "k", Normal)
    case 1 => AttachExisting(0)
    case 2 => TakeSlot(0)
    case 3 => CallSubmit(1, "k", Normal)
    case 4 => Insert(0, 0)
    case 5 => CancelScheduler
    case 6 => Poll(0)
    case 7 => Exit(0)
    case 8 => Stop
    case 9 => AttachExisting(1)
    case 10 => TakeSlot(1)
    case 11 => Insert(1, 1)
    case 12 => Enqueue(Submitter(1))
    case 13 => EnqueueFails(Submitter(0))
    case _ => WithdrawTask(Submitter(0))
  }

  function LateFirst(n: nat): Pc {
    if n == 1 then Attaching else if n == 2 then Acquiring else if n <= 4 then Inserting
    else if n <= 13 then Enqueueing(0, []) else if n == 14 then Withdrawing(0, []) else Notifying([])
  }

  function LateSecond(n: nat): Pc {
    if n <= 9 then Attaching else if n == 10 then Acquiring else if n == 11 then Inserting
    else if n == 12 then Enqueueing(1, []) else Accepted
  }

  ghost predicate LateCall(s: State, c: Call, p: Pc) {
    At(s, Submitter(c), p) && c in s.requests && s.requests[c] == Request("k", Normal, 0) && c in s.sent
  }

  ghost predicate LateTasks(n: nat, s: State) {
    && s.table.tasks == (if 5 <= n <= 8 then map["k" := 0] else if 12 <= n <= 14 then map["k" := 1] else map[])
    && s.table.heap.Keys == (if n <= 4 then {} else if n <= 11 then {0} else {0, 1})
    && (n >= 5 ==> s.table.heap[0] == Task("k", Normal, [0], Normal, [], false))
    && (n >= 12 ==> s.table.heap[1] == Task("k", Normal, [1], Normal, [], false))
  }

  ghost predicate LateStage(n: nat, s: State) {
    && s.dead == {} && s.capacity == 2 && s.slots == (if n <= 2 then 0 else if n <= 10 then 1 else 2)
    && s.phase == (if n <= 5 then Open else if n <= 8 then Draining else Stopped)
    && s.executions == 0 && s.high == [] && (n <= 12 ==> s.normal == [])
    && (if n == 0 then NotYet(s, 0) else LateCall(s, 0, LateFirst(n)))
    && (if n <= 3 then NotYet(s, 1) else LateCall(s, 1, LateSecond(n)) && s.sent[1] == [])
    && At(s, Worker(0), if n <= 6 then Idle else if n == 7 then Choosing else Exited)
    && (forall a {:trigger s.pcs[a]} :: a in s.pcs ==> a in {Worker(0), Submitter(0), Submitter(1)})
    && LateTasks(n, s)
  }

  lemma LateStepSlot(n: nat, s: State)
    requires LateStage(n, s) && n < 3
    ensures Enabled(s, LateEvent(n)) && LateStage(n + 1, Apply(s, LateEvent(n)))
  {
  }

  lemma LateStepInsert(n: nat, s: State)
    requires LateStage(n, s) && 3 <= n < 5
    ensures Enabled(s, LateEvent(n)) && LateStage(n + 1, Apply(s, LateEvent(n)))
  {
  }

  lemma LateStepClosing(n: nat, s: State)
    requires LateStage(n, s) && 5 <= n < 9
    ensures Enabled(s, LateEvent(n)) && LateStage(n + 1, Apply(s, LateEvent(n)))
  {
    if n == 8 {
      assert !Attached(s.table, 1);
    }
  }

  lemma LateStepJoin(n: nat, s: State)
    requires LateStage(n, s) && 9 <= n < 12
    ensures Enabled(s, LateEvent(n)) && LateStage(n + 1, Apply(s, LateEvent(n)))
  {
  }

  lemma LateStepLast(n: nat, s: State)
    requires LateStage(n, s) && 12 <= n < 15
    ensures Enabled(s, LateEvent(n)) && LateStage(n + 1, Apply(s, LateEvent(n)))
  {
  }

  lemma LateStart() returns (s: State)
    ensures Reachable(s) && LateStage(0, s)
  {
    s := Initial(1, 2);
    assert Reaches(s, [], s);
  }

  lemma {:induction false} LateRun(n: nat) returns (s: State)
    requires n <= 15
    ensures Reachable(s) && LateStage(n, s)
  {
    hide LateStage, Apply, Enabled, Reachable;
    if n == 0 {
      s := LateStart();
    } else {
      s := LateRun(n - 1);
      if n - 1 < 3 {
        LateStepSlot(n - 1, s);
      } else if n - 1 < 5 {
        LateStepInsert(n - 1, s);
      } else if n - 1 < 9 {
        LateStepClosing(n - 1, s);
      } else if n - 1 < 12 {
        LateStepJoin(n - 1, s);
      } else {
        LateStepLast(n - 1, s);
      }
      s := Extend(s, LateEvent(n - 1));
    }
  }

  lemma LateKept(s: State)
    requires LateStage(14, s)
    ensures s.phase == Stopped && At(s, Submitter(1), Accepted) && 1 !in s.dead && Kept(s, 1) && s.sent[1] == []
  {
    assert s.table.tasks["k"] == 1;
  }

  lemma LateLost(s: State)
    requires LateStage(15, s) && !Owed(s, 1)
    ensures At(s, Submitter(1), Accepted) && 1 !in s.dead && !Kept(s, 1)
  {
  }

  lemma WaiterLostAfterClose() returns (s: State, s': State)
    ensures Reachable(s) && s.phase == Stopped && At(s, Submitter(1), Accepted) && 1 !in s.dead && Kept(s, 1) && s.sent[1] == []
    ensures Enabled(s, WithdrawTask(Submitter(0))) && s' == Apply(s, WithdrawTask(Submitter(0))) && Reachable(s')
    ensures At(s', Submitter(1), Accepted) && 1 !in s'.dead && !Kept(s', 1)
  {
    hide Apply, Enabled, Reachable, Closed, LateStage, Attached, Owed;
    s := LateRun(14);
    LateStepLast(14, s);
    s' := Extend(s, LateEvent(14));
    ReachableClosed(s');
    ClosedNotOwed(s', 1);
    LateKept(s);
    LateLost(s');
  }
}

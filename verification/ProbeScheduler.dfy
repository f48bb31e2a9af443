/**
  The sections of the scheduler that run under its mutex, in the form the scheduler has them:
  methods that update the guarded fields, each shown to be the step the state machine takes.
 */
module ProbeScheduler {
  import opened SchedulerModel

  datatype RunOutcome = StaleTask | NobodyWaits | Runs

  class ProbeScheduler {
    var tasks: map<Key, TaskId>
    var heap: map<TaskId, Task>
    var queued: int
    var running: int
    var deduplicated: int
    var dead: set<Call>                 // the waiters whose context is cancelled
    var sent: map<Call, seq<Answer>>    // what each waiter's channel has been sent

    constructor ()
      ensures Fields() == Table(map[], map[], 0, 0, 0) && dead == {} && sent == map[]
    {
      tasks, heap, queued, running, deduplicated, dead, sent := map[], map[], 0, 0, 0, {}, map[];
    }

    function Fields(): Table
      reads this
    {
      Table(tasks, heap, queued, running, deduplicated)
    }

    method AttachLocked(t: TaskId, priority: Priority, c: Call)
      requires t in heap
      modifies this`heap, this`deduplicated
      ensures Fields() == Attach(old(Fields()), t, priority, c)
    {
      deduplicated := deduplicated + 1;
      var task := heap[t];
      if task.running {
        task := task.(nextWaiters := task.nextWaiters + [c]);
        if priority.High? && task.nextPriority.Normal? {
          task := task.(nextPriority := priority);
        }
      } else {
        task := task.(waiters := task.waiters + [c]);
      }
      heap := heap[t := task];
    }

    method AttachExisting(key: Key, priority: Priority, c: Call) returns (found: bool)
      requires key in tasks ==> tasks[key] in heap
      modifies this`heap, this`deduplicated
      ensures found == (key in old(tasks))
      ensures Fields() == if found then Attach(old(Fields()), old(tasks)[key], priority, c) else old(Fields())
    {
      found := key in tasks;
      if found {
        AttachLocked(tasks[key], priority, c);
      }
    }

    // The second look at the table, taken once Submit holds a slot.
    method InsertLocked(key: Key, priority: Priority, c: Call, spare: TaskId) returns (created: bool)
      requires spare !in heap && (key in tasks ==> tasks[key] in heap)
      modifies this`tasks, this`heap, this`queued, this`deduplicated
      ensures created == (key !in old(tasks))
      ensures Fields() == if created then Register(old(Fields()), spare, key, priority, c)
                          else Attach(old(Fields()), old(tasks)[key], priority, c)
    {
      created := key !in tasks;
      if !created {
        AttachLocked(tasks[key], priority, c);
        return;
      }
      heap := heap[spare := Task(key, priority, [c], Normal, [], false)];
      tasks := tasks[key := spare];
      queued := queued + 1;
    }

    method ActiveWaiters(waiters: seq<Call>) returns (active: seq<Call>)
      ensures active == Live(waiters, dead)
    {
      active := [];
      for i := 0 to |waiters|
        invariant active == Live(waiters[..i], dead)
      {
        assert waiters[..i + 1][..i] == waiters[..i];
        if waiters[i] !in dead {
          active := active + [waiters[i]];
        }
      }
      assert waiters[..|waiters|] == waiters;
    }

    // The removal of a task that will not run: `enqueue` failed for it.
    method WithdrawLocked(key: Key)
      modifies this`tasks, this`queued
      ensures Fields() == Withdraw(old(Fields()), key)
    {
      tasks := tasks - {key};
      queued := queued - 1;
    }

    // The start of `run`, up to the release of the lock.
    method BeginRun(t: TaskId) returns (outcome: RunOutcome, active: seq<Call>)
      requires t in heap
      modifies this`tasks, this`heap, this`queued, this`running
      ensures outcome.StaleTask? <==> !old(Fields()).Registered(t) || old(heap)[t].running
      ensures !outcome.StaleTask? ==> active == Live(old(heap)[t].waiters, dead) && (outcome.NobodyWaits? <==> active == [])
      ensures Fields() == match outcome
                          case StaleTask => old(Fields())
                          case NobodyWaits => Withdraw(old(Fields()), old(heap)[t].key)
                          case Runs => Begin(old(Fields()), t)
    {
      var task := heap[t];
      if task.key !in tasks || tasks[task.key] != t || task.running {
        return StaleTask, [];
      }
      active := ActiveWaiters(task.waiters);
      if |active| == 0 {
        WithdrawLocked(task.key);
        return NobodyWaits, active;
      }
      heap := heap[t := task.(running := true)];
      queued := queued - 1;
      running := running + 1;
      outcome := Runs;
    }

    // The end of `run`: a task goes, or is renewed for the waiters that joined meanwhile.
    method FinishRun(t: TaskId, canceled: bool) returns (again: bool, next: seq<Call>)
      requires t in heap
      modifies this`tasks, this`heap, this`queued, this`running
      ensures next == Live(old(heap)[t].nextWaiters, dead) && again == (next != [] && !canceled)
      ensures Fields() == if again then Renew(old(Fields()), t, next) else Retire(old(Fields()), t)
    {
      var task := heap[t];
      next := ActiveWaiters(task.nextWaiters);
      again := |next| != 0 && !canceled;
      if !again {
        tasks := tasks - {task.key};
        heap := heap[t := task.(running := false)];
        running := running - 1;
        return;
      }
      task := task.(running := false);
      task := task.(priority := task.nextPriority);
      task := task.(waiters := next);
      task := task.(nextPriority := Normal, nextWaiters := []);
      heap := heap[t := task];
      running := running - 1;
      queued := queued + 1;
    }

    // Sends a cancellation without waiting: a full channel is left as it is.
    method NotifyCanceled(c: Call)
      requires c in sent
      modifies this`sent
      ensures sent == SendCanceled(old(sent), c)
    {
      if sent[c] == [] {
        sent := sent[c := [Canceled]];
      }
    }

    method NotifyAll(waiters: seq<Call>)
      requires forall c {:trigger c in waiters} :: c in waiters ==> c in sent
      modifies this`sent
      ensures sent.Keys == old(sent).Keys
      ensures forall c :: c in sent ==> sent[c] == if old(sent)[c] == [] && c in waiters then [Canceled] else old(sent)[c]
    {
      for i := 0 to |waiters|
        invariant sent.Keys == old(sent).Keys
        invariant forall c :: c in sent ==> sent[c] == if old(sent)[c] == [] && c in waiters[..i] then [Canceled] else old(sent)[c]
      {
        assert waiters[i] in waiters && waiters[..i + 1] == waiters[..i] + [waiters[i]];
        NotifyCanceled(waiters[i]);
      }
      assert waiters[..|waiters|] == waiters;
    }

    // The end of Close, after every worker has exited.
    method CloseTasks()
      requires forall k {:trigger tasks[k]} :: k in tasks ==> tasks[k] in heap && WaitersOf(Fields(), k) <= sent.Keys
      modifies this`sent, this`tasks
      ensures tasks == map[]
      ensures sent == map c | c in old(sent) :: if old(sent)[c] == [] && Attached(old(Fields()), c) then [Canceled] else old(sent)[c]
    {
      ghost var tb, was := Fields(), sent;
      var rest := tasks.Keys;
      while rest != {}
        invariant rest <= tasks.Keys && Fields() == tb && Told(tb, was, sent, tasks.Keys - rest)
        decreases |rest|
      {
        var k :| k in rest;
        ghost var before := sent;
        assert tb.tasks[k] in tb.heap && WaitersOf(tb, k) <= was.Keys;
        var waiters := heap[tasks[k]].waiters + heap[tasks[k]].nextWaiters;
        assert forall c :: c in waiters <==> c in WaitersOf(tb, k);
        NotifyAll(waiters);
        ToldStep(tb, was, before, sent, tasks.Keys - rest, k);
        assert tasks.Keys - (rest - {k}) == (tasks.Keys - rest) + {k};
        rest := rest - {k};
      }
      assert tasks.Keys - rest == tasks.Keys;
      ToldAll(tb, was, sent);
      tasks := map[];
    }
  }

  ghost function WaitersOf(tb: Table, k: Key): set<Call> {
    if k in tb.tasks && tb.tasks[k] in tb.heap
    then set c | c in tb.heap[tb.tasks[k]].waiters + tb.heap[tb.tasks[k]].nextWaiters
    else {}
  }

  ghost predicate WaitsIn(tb: Table, keys: set<Key>, c: Call) {
    exists k :: k in keys && c in WaitersOf(tb, k)
  }

  // The waiters of the tasks in `done` have been told, and no others.
  ghost predicate Told(tb: Table, was: map<Call, seq<Answer>>, now: map<Call, seq<Answer>>, done: set<Key>) {
    && now.Keys == was.Keys
    && forall c {:trigger now[c]} :: c in was ==> now[c] == if was[c] == [] && WaitsIn(tb, done, c) then [Canceled] else was[c]
  }

  lemma ToldStep(tb: Table, was: map<Call, seq<Answer>>, before: map<Call, seq<Answer>>, now: map<Call, seq<Answer>>, done: set<Key>, k: Key)
    requires Told(tb, was, before, done) && now.Keys == before.Keys
    requires forall c :: c in now ==> now[c] == if before[c] == [] && c in WaitersOf(tb, k) then [Canceled] else before[c]
    ensures Told(tb, was, now, done + {k})
  {
    forall c ensures WaitsIn(tb, done + {k}, c) <==> WaitsIn(tb, done, c) || c in WaitersOf(tb, k) {
      if WaitsIn(tb, done, c) {
        var j :| j in done && c in WaitersOf(tb, j);
        assert j in done + {k};
      }
      if c in WaitersOf(tb, k) { assert k in done + {k}; }
    }
  }

  lemma ToldAll(tb: Table, was: map<Call, seq<Answer>>, now: map<Call, seq<Answer>>)
    requires Told(tb, was, now, tb.tasks.Keys)
    ensures now == map c | c in was :: if was[c] == [] && Attached(tb, c) then [Canceled] else was[c]
  {
    forall c ensures WaitsIn(tb, tb.tasks.Keys, c) <==> Attached(tb, c) {
      if Attached(tb, c) {
        var k :| k in tb.tasks && tb.tasks[k] in tb.heap
                 && (c in tb.heap[tb.tasks[k]].waiters || c in tb.heap[tb.tasks[k]].nextWaiters);
        assert k in tb.tasks.Keys && c in WaitersOf(tb, k);
      }
    }
  }
}

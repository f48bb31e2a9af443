/**
  The probe scheduler as a state machine whose steps are the lock-protected
  sections, channel operations and context events of the scheduler's goroutines.
  Every interleaving of submitters and workers is a sequence of these steps.
 */
module SchedulerModel {

  type Key = string
  type Call = nat      // one call of Submit, and the waiter it brings
  type TaskId = nat    // the identity of a task object

  datatype Priority = Normal | High

  datatype Answer = Completed(exec: nat, value: int) | Canceled

  datatype Task = Task(
    key: Key, priority: Priority, waiters: seq<Call>,
    nextPriority: Priority, nextWaiters: seq<Call>, running: bool)

  // The fields guarded by the scheduler's mutex; `heap` holds every task object made so far.
  datatype Table = Table(
    tasks: map<Key, TaskId>, heap: map<TaskId, Task>,
    queued: int, running: int, deduplicated: int)
  {
    predicate Registered(t: TaskId) {
      t in heap && heap[t].key in tasks && tasks[heap[t].key] == t
    }
  }

  // A goroutine: a call of Submit or a pool worker.
  datatype Agent = Submitter(call: Call) | Worker(index: nat)

  datatype Pc =
    // submitters
    | Attaching | Acquiring | Inserting | GivingBack | Accepted | Refused
    // either: `owed` are the waiters told about a cancellation if the enqueue fails
    | Enqueueing(task: TaskId, owed: seq<Call>) | Withdrawing(task: TaskId, owed: seq<Call>)
    | Notifying(owed: seq<Call>)
    // workers
    | Idle | Choosing | Starting(task: TaskId)
    | Executing(task: TaskId, served: seq<Call>, exec: nat)
    | Delivering(task: TaskId, served: seq<Call>, exec: nat, value: int)
    | Exited

  // Who will act on a task object next, where a waiter currently is, and what holds a slot:
  // history the proofs keep beside the program's own fields.
  datatype Owner = Nobody | InHigh | InNormal | Held(agent: Agent)
  datatype Place = Nowhere | AtTask(t: TaskId) | AtNext(t: TaskId) | InFlight(agent: Agent) | Gone
  datatype SlotUse = OfTask(t: TaskId) | OfAgent(a: Agent)

  datatype Request = Request(key: Key, priority: Priority, stamp: nat)

  datatype Phase = Open | Draining | Stopped

  datatype State = State(
    capacity: nat, phase: Phase, table: Table,
    high: seq<TaskId>, normal: seq<TaskId>, slots: nat,
    pcs: map<Agent, Pc>, requests: map<Call, Request>, dead: set<Call>,
    sent: map<Call, seq<Answer>>, executions: nat,
    owner: map<TaskId, Owner>, place: map<Call, Place>, uses: set<SlotUse>)

  // ---- lock-protected sections, as functions of the guarded fields ----

  function Higher(p: Priority, q: Priority): Priority {
    if p.High? then p else q
  }

  function Joined(task: Task, priority: Priority, c: Call): Task {
    if task.running
    then task.(nextWaiters := task.nextWaiters + [c], nextPriority := Higher(priority, task.nextPriority))
    else task.(waiters := task.waiters + [c])
  }

  function Attach(tb: Table, t: TaskId, priority: Priority, c: Call): Table
    requires t in tb.heap
  {
    tb.(heap := tb.heap[t := Joined(tb.heap[t], priority, c)], deduplicated := tb.deduplicated + 1)
  }

  function Register(tb: Table, t: TaskId, key: Key, priority: Priority, c: Call): Table {
    tb.(tasks := tb.tasks[key := t],
        heap := tb.heap[t := Task(key, priority, [c], Normal, [], false)],
        queued := tb.queued + 1)
  }

  // Removal of a task that is not running.
  function Withdraw(tb: Table, key: Key): Table {
    tb.(tasks := tb.tasks - {key}, queued := tb.queued - 1)
  }

  function Begin(tb: Table, t: TaskId): Table
    requires t in tb.heap
  {
    tb.(heap := tb.heap[t := tb.heap[t].(running := true)], queued := tb.queued - 1, running := tb.running + 1)
  }

  function Retire(tb: Table, t: TaskId): Table
    requires t in tb.heap
  {
    tb.(tasks := tb.tasks - {tb.heap[t].key}, heap := tb.heap[t := tb.heap[t].(running := false)], running := tb.running - 1)
  }

  function Renewed(task: Task, next: seq<Call>): Task {
    task.(running := false, priority := task.nextPriority, waiters := next, nextPriority := Normal, nextWaiters := [])
  }

  function Renew(tb: Table, t: TaskId, next: seq<Call>): Table
    requires t in tb.heap
  {
    tb.(heap := tb.heap[t := Renewed(tb.heap[t], next)], queued := tb.queued + 1, running := tb.running - 1)
  }

  // The waiters whose context is not cancelled, in order.
  function Live(ws: seq<Call>, dead: set<Call>): (r: seq<Call>)
    ensures forall c :: c in r <==> c in ws && c !in dead
    ensures |r| <= |ws|
  {
    if ws == [] then []
    else if ws[|ws| - 1] in dead then Live(ws[..|ws| - 1], dead)
    else Live(ws[..|ws| - 1], dead) + [ws[|ws| - 1]]
  }

  // ---- steps ----

  datatype Event =
    | CallSubmit(c: Call, key: Key, priority: Priority)
    | AttachExisting(c: Call)
    | TakeSlot(c: Call)
    | GiveUp(c: Call)
    | Insert(c: Call, spare: TaskId)
    | GiveBack(c: Call)
    | Enqueue(a: Agent)
    | EnqueueFails(a: Agent)
    | WithdrawTask(a: Agent)
    | NotifyOne(a: Agent)
    | Release(a: Agent)
    | Poll(w: nat)
    | ChooseHigh(w: nat)
    | ChooseNormal(w: nat)
    | Exit(w: nat)
    | Start(w: nat)
    | Execute(w: nat, value: int)
    | Deliver(w: nat)
    | SkipDead(w: nat)
    | Finish(w: nat)
    | Kill(c: Call)
    | CancelScheduler
    | Stop

  predicate At(s: State, a: Agent, p: Pc) {
    a in s.pcs && s.pcs[a] == p
  }

  predicate Enabled(s: State, e: Event) {
    match e
    case CallSubmit(c, _, _) => Submitter(c) !in s.pcs && c !in s.requests && c !in s.sent && c !in s.place
    case AttachExisting(c) => At(s, Submitter(c), Attaching) && c in s.requests
    case TakeSlot(c) => At(s, Submitter(c), Acquiring) && s.slots < s.capacity
    case GiveUp(c) => At(s, Submitter(c), Acquiring) && (c in s.dead || s.phase != Open)
    case Insert(c, spare) => At(s, Submitter(c), Inserting) && c in s.requests && spare !in s.table.heap
    case GiveBack(c) => At(s, Submitter(c), GivingBack) && s.slots > 0
    case Enqueue(a) =>
      && a in s.pcs && s.pcs[a].Enqueueing? && s.pcs[a].task in s.table.heap
      && |QueueOf(s, s.pcs[a].task)| < s.capacity
    case EnqueueFails(a) => a in s.pcs && s.pcs[a].Enqueueing? && s.phase != Open
    case WithdrawTask(a) => a in s.pcs && s.pcs[a].Withdrawing? && s.pcs[a].task in s.table.heap
    case NotifyOne(a) => a in s.pcs && s.pcs[a].Notifying? && s.pcs[a].owed != [] && s.pcs[a].owed[0] in s.sent
    case Release(a) => At(s, a, Notifying([])) && s.slots > 0
    case Poll(w) => At(s, Worker(w), Idle)
    case ChooseHigh(w) => At(s, Worker(w), Choosing) && s.high != []
    case ChooseNormal(w) => At(s, Worker(w), Choosing) && s.normal != []
    case Exit(w) => At(s, Worker(w), Choosing) && s.phase != Open
    case Start(w) => Worker(w) in s.pcs && s.pcs[Worker(w)].Starting? && s.pcs[Worker(w)].task in s.table.heap
    case Execute(w, _) => Worker(w) in s.pcs && s.pcs[Worker(w)].Executing?
    case Deliver(w) =>
      && Worker(w) in s.pcs && s.pcs[Worker(w)].Delivering? && s.pcs[Worker(w)].served != []
      && s.pcs[Worker(w)].served[0] in s.sent
    case SkipDead(w) =>
      && Worker(w) in s.pcs && s.pcs[Worker(w)].Delivering? && s.pcs[Worker(w)].served != []
      && s.pcs[Worker(w)].served[0] in s.dead
    case Finish(w) =>
      && Worker(w) in s.pcs && s.pcs[Worker(w)].Delivering? && s.pcs[Worker(w)].served == []
      && s.pcs[Worker(w)].task in s.table.heap
    case Kill(c) => true
    case CancelScheduler => s.phase == Open
    case Stop => s.phase == Draining && forall a :: a in s.pcs && a.Worker? ==> s.pcs[a] == Exited
  }

  function QueueOf(s: State, t: TaskId): seq<TaskId>
    requires t in s.table.heap
  {
    if s.table.heap[t].priority.High? then s.high else s.normal
  }

  // Moves every waiter of `cs` to place `p`.
  function Moved(place: map<Call, Place>, cs: seq<Call>, p: Place): map<Call, Place> {
    map c | c in place :: if c in cs then p else place[c]
  }

  function AttachStep(s: State, c: Call, next: Pc): State
    requires c in s.requests && s.requests[c].key in s.table.tasks
    requires s.table.tasks[s.requests[c].key] in s.table.heap
  {
    var t := s.table.tasks[s.requests[c].key];
    s.(table := Attach(s.table, t, s.requests[c].priority, c),
       pcs := s.pcs[Submitter(c) := next],
       place := s.place[c := if s.table.heap[t].running then AtNext(t) else AtTask(t)])
  }

  function RegisterStep(s: State, c: Call, t: TaskId): State
    requires c in s.requests
  {
    s.(table := Register(s.table, t, s.requests[c].key, s.requests[c].priority, c),
       pcs := s.pcs[Submitter(c) := Enqueueing(t, [])],
       owner := s.owner[t := Held(Submitter(c))],
       place := s.place[c := AtTask(t)],
       uses := s.uses - {OfAgent(Submitter(c))} + {OfTask(t)})
  }

  function EnqueueStep(s: State, a: Agent): State
    requires a in s.pcs && s.pcs[a].Enqueueing? && s.pcs[a].task in s.table.heap
  {
    var t := s.pcs[a].task;
    var s' := s.(pcs := s.pcs[a := if a.Worker? then Idle else Accepted]);
    if s.table.heap[t].priority.High?
    then s'.(high := s.high + [t], owner := s.owner[t := InHigh])
    else s'.(normal := s.normal + [t], owner := s.owner[t := InNormal])
  }

  function WithdrawStep(s: State, a: Agent): State
    requires a in s.pcs && s.pcs[a].Withdrawing? && s.pcs[a].task in s.table.heap
  {
    var t := s.pcs[a].task;
    var task := s.table.heap[t];
    s.(table := Withdraw(s.table, task.key),
       pcs := s.pcs[a := Notifying(s.pcs[a].owed)],
       owner := s.owner[t := Nobody],
       place := Moved(Moved(s.place, task.waiters, Gone), s.pcs[a].owed, InFlight(a)),
       uses := s.uses - {OfTask(t)} + {OfAgent(a)})
  }

  function SendCanceled(sent: map<Call, seq<Answer>>, c: Call): map<Call, seq<Answer>>
    requires c in sent
  {
    if sent[c] == [] then sent[c := [Canceled]] else sent  // the buffered channel is full: skip
  }

  function NotifyStep(s: State, a: Agent): State
    requires a in s.pcs && s.pcs[a].Notifying? && s.pcs[a].owed != [] && s.pcs[a].owed[0] in s.sent
  {
    var c := s.pcs[a].owed[0];
    s.(sent := SendCanceled(s.sent, c),
       pcs := s.pcs[a := Notifying(s.pcs[a].owed[1..])],
       place := s.place[c := Gone])
  }

  function ReleaseStep(s: State, a: Agent): State
    requires s.slots > 0
  {
    s.(slots := s.slots - 1, uses := s.uses - {OfAgent(a)},
       pcs := s.pcs[a := if a.Worker? then Idle else Refused])
  }

  function TakeHigh(s: State, w: nat): State
    requires s.high != []
  {
    s.(high := s.high[1..], pcs := s.pcs[Worker(w) := Starting(s.high[0])], owner := s.owner[s.high[0] := Held(Worker(w))])
  }

  function TakeNormal(s: State, w: nat): State
    requires s.normal != []
  {
    s.(normal := s.normal[1..], pcs := s.pcs[Worker(w) := Starting(s.normal[0])], owner := s.owner[s.normal[0] := Held(Worker(w))])
  }

  // The stale-task guard of `run`.
  predicate Stale(s: State, t: TaskId)
    requires t in s.table.heap
  {
    !s.table.Registered(t) || s.table.heap[t].running
  }

  function StartStep(s: State, w: nat): State
    requires Worker(w) in s.pcs && s.pcs[Worker(w)].Starting? && s.pcs[Worker(w)].task in s.table.heap
  {
    var a := Worker(w);
    var t := s.pcs[a].task;
    var task := s.table.heap[t];
    var active := Live(task.waiters, s.dead);
    if Stale(s, t) then s.(pcs := s.pcs[a := Idle])
    else if active == [] then
      s.(table := Withdraw(s.table, task.key),
         pcs := s.pcs[a := Notifying([])],
         owner := s.owner[t := Nobody],
         place := Moved(s.place, task.waiters, Gone),
         uses := s.uses - {OfTask(t)} + {OfAgent(a)})
    else
      s.(table := Begin(s.table, t),
         pcs := s.pcs[a := Executing(t, active, s.executions + 1)],
         executions := s.executions + 1,
         place := Moved(Moved(s.place, task.waiters, Gone), active, InFlight(a)))
  }

  function FinishStep(s: State, w: nat): State
    requires Worker(w) in s.pcs && s.pcs[Worker(w)].Delivering? && s.pcs[Worker(w)].task in s.table.heap
  {
    var a := Worker(w);
    var t := s.pcs[a].task;
    var task := s.table.heap[t];
    var next := Live(task.nextWaiters, s.dead);
    if next == [] || s.phase != Open then
      s.(table := Retire(s.table, t),
         pcs := s.pcs[a := Notifying([])],
         owner := s.owner[t := Nobody],
         place := Moved(s.place, task.nextWaiters, Gone),
         uses := s.uses - {OfTask(t)} + {OfAgent(a)})
    else
      s.(table := Renew(s.table, t, next),
         pcs := s.pcs[a := Enqueueing(t, next)],
         place := Moved(Moved(s.place, task.nextWaiters, Gone), next, AtTask(t)))
  }

  predicate Attached(tb: Table, c: Call) {
    exists k :: k in tb.tasks && tb.tasks[k] in tb.heap &&
      (c in tb.heap[tb.tasks[k]].waiters || c in tb.heap[tb.tasks[k]].nextWaiters)
  }

  function StopStep(s: State): State {
    s.(phase := Stopped,
       sent := map c | c in s.sent :: if s.sent[c] == [] && Attached(s.table, c) then [Canceled] else s.sent[c],
       table := s.table.(tasks := map[]))
  }

  function Apply(s: State, e: Event): State
    requires Enabled(s, e)
  {
    match e
    case CallSubmit(c, key, priority) =>
      s.(pcs := s.pcs[Submitter(c) := if s.phase == Open && c !in s.dead then Attaching else Refused],
         requests := s.requests[c := Request(key, priority, s.executions)],
         sent := s.sent[c := []], place := s.place[c := Nowhere])
    case AttachExisting(c) =>
      if s.requests[c].key in s.table.tasks && s.table.tasks[s.requests[c].key] in s.table.heap
      then AttachStep(s, c, Accepted)
      else s.(pcs := s.pcs[Submitter(c) := Acquiring])
    case TakeSlot(c) =>
      s.(slots := s.slots + 1, uses := s.uses + {OfAgent(Submitter(c))}, pcs := s.pcs[Submitter(c) := Inserting])
    case GiveUp(c) => s.(pcs := s.pcs[Submitter(c) := Refused])
    case Insert(c, spare) =>
      if s.requests[c].key in s.table.tasks && s.table.tasks[s.requests[c].key] in s.table.heap
      then AttachStep(s, c, GivingBack)
      else RegisterStep(s, c, spare)
    case GiveBack(c) =>
      s.(slots := s.slots - 1, uses := s.uses - {OfAgent(Submitter(c))}, pcs := s.pcs[Submitter(c) := Accepted])
    case Enqueue(a) => EnqueueStep(s, a)
    case EnqueueFails(a) => s.(pcs := s.pcs[a := Withdrawing(s.pcs[a].task, s.pcs[a].owed)])
    case WithdrawTask(a) => WithdrawStep(s, a)
    case NotifyOne(a) => NotifyStep(s, a)
    case Release(a) => ReleaseStep(s, a)
    case Poll(w) => if s.high != [] then TakeHigh(s, w) else s.(pcs := s.pcs[Worker(w) := Choosing])
    case ChooseHigh(w) => TakeHigh(s, w)
    case ChooseNormal(w) => TakeNormal(s, w)
    case Exit(w) => s.(pcs := s.pcs[Worker(w) := Exited])
    case Start(w) => StartStep(s, w)
    case Execute(w, value) =>
      var p := s.pcs[Worker(w)];
      s.(pcs := s.pcs[Worker(w) := Delivering(p.task, p.served, p.exec, value)])
    case Deliver(w) =>
      var p := s.pcs[Worker(w)];
      s.(sent := s.sent[p.served[0] := s.sent[p.served[0]] + [Completed(p.exec, p.value)]],
         pcs := s.pcs[Worker(w) := Delivering(p.task, p.served[1..], p.exec, p.value)],
         place := s.place[p.served[0] := Gone])
    case SkipDead(w) =>
      var p := s.pcs[Worker(w)];
      s.(pcs := s.pcs[Worker(w) := Delivering(p.task, p.served[1..], p.exec, p.value)], place := s.place[p.served[0] := Gone])
    case Finish(w) => FinishStep(s, w)
    case Kill(c) => s.(dead := s.dead + {c})
    case CancelScheduler => s.(phase := Draining)
    case Stop => StopStep(s)
  }

  // newProbeScheduler: at least one worker, and room for at least one task a worker.
  function Initial(workers: int, capacity: int): State {
    var n := if workers < 1 then 1 else workers;
    State(if capacity < n then n else capacity, Open, Table(map[], map[], 0, 0, 0), [], [], 0,
          map w: nat | 0 <= w < n :: Worker(w) := Idle, map[], {}, map[], 0, map[], map[], {})
  }

  // The states a scheduler can be in after some interleaving of steps.
  ghost predicate Reaches(s: State, events: seq<Event>, s': State)
    decreases |events|
  {
    if events == [] then s == s'
    else Enabled(s, events[0]) && Reaches(Apply(s, events[0]), events[1..], s')
  }
}

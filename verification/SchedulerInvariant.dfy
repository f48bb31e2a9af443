/**
  What every step of the scheduler keeps.  Each fact is stated of one task, one agent or one
  waiter, and the quantifiers over them open only where a proof names an instance.
 */
module SchedulerInvariant {
  import opened SchedulerModel

  ghost predicate NoRepeats<T>(xs: seq<T>) {
    forall i, j :: 0 <= i < j < |xs| ==> xs[i] != xs[j]
  }

  ghost predicate HasTask(p: Pc) {
    p.Enqueueing? || p.Withdrawing? || p.Starting? || p.Executing? || p.Delivering?
  }

  ghost predicate RunsTask(p: Pc) {
    p.Executing? || p.Delivering?
  }

  ghost predicate HoldsSlot(p: Pc) {
    p.Inserting? || p.GivingBack? || p.Notifying?
  }

  ghost function Served(p: Pc): seq<Call> {
    if p.Notifying? then p.owed else if RunsTask(p) then p.served else []
  }

  // A submitter never works a queue and never owes a notification.
  ghost predicate KindOk(a: Agent, p: Pc) {
    if a.Submitter?
    then !p.Idle? && !p.Choosing? && !p.Starting? && !RunsTask(p) && !p.Exited?
         && (p.Enqueueing? || p.Withdrawing? || p.Notifying? ==> p.owed == [])
    else !p.Attaching? && !p.Acquiring? && !p.Inserting? && !p.GivingBack? && !p.Accepted? && !p.Refused?
  }

  // At most one answer a waiter, and only from an execution begun after its Submit was called.
  ghost predicate AnswerOk(s: State, c: Call) {
    && c in s.requests && c in s.sent && c in s.place && Submitter(c) in s.pcs
    && s.requests[c].stamp <= s.executions
    && |s.sent[c]| <= 1
    && (s.sent[c] != [] && s.sent[c][0].Completed? ==> s.requests[c].stamp < s.sent[c][0].exec <= s.executions)
  }

  ghost predicate AllAt(place: map<Call, Place>, cs: seq<Call>, p: Place) {
    NoRepeats(cs) && forall c {:trigger c in cs} :: c in cs ==> c in place && place[c] == p
  }

  // Exactly one party acts next on a registered task, and none on any other.
  ghost predicate OwnerOk(s: State, t: TaskId) {
    && t in s.table.heap && t in s.owner
    && (s.owner[t] != Nobody <==> s.table.Registered(t))
    && (s.owner[t] == InHigh <==> t in s.high)
    && (s.owner[t] == InNormal <==> t in s.normal)
    && (s.owner[t].Held? ==>
          s.owner[t].agent in s.pcs && HasTask(s.pcs[s.owner[t].agent]) && s.pcs[s.owner[t].agent].task == t)
    && (s.table.heap[t].running <==> s.owner[t].Held? && RunsTask(s.pcs[s.owner[t].agent]))
    && (OfTask(t) in s.uses <==> s.owner[t] != Nobody)
  }

  ghost predicate WaitersOk(s: State, t: TaskId)
    requires t in s.table.heap && t in s.owner
  {
    && (s.owner[t] != Nobody && !s.table.heap[t].running ==>
          AllAt(s.place, s.table.heap[t].waiters, AtTask(t)) && s.table.heap[t].nextWaiters == [])
    && (s.table.heap[t].running ==> AllAt(s.place, s.table.heap[t].nextWaiters, AtNext(t)))
  }

  ghost predicate TaskOk(s: State, t: TaskId) {
    OwnerOk(s, t) && WaitersOk(s, t)
  }

  ghost predicate AllFresh(s: State, cs: seq<Call>, exec: nat) {
    forall c {:trigger c in cs} :: c in cs ==> c in s.requests && s.requests[c].stamp < exec
  }

  ghost predicate AgentOk(s: State, a: Agent) {
    && a in s.pcs && KindOk(a, s.pcs[a])
    && (a.Submitter? ==> a.call in s.requests && a.call in s.place)
    && (HasTask(s.pcs[a]) ==> s.pcs[a].task in s.table.heap && s.pcs[a].task in s.owner && s.owner[s.pcs[a].task] == Held(a))
    && (OfAgent(a) in s.uses <==> HoldsSlot(s.pcs[a]))
    && AllAt(s.place, Served(s.pcs[a]), InFlight(a))
    && (s.pcs[a].Enqueueing? || s.pcs[a].Withdrawing? ==> s.pcs[a].owed <= s.table.heap[s.pcs[a].task].waiters)
    && (RunsTask(s.pcs[a]) ==> s.pcs[a].exec <= s.executions && AllFresh(s, s.pcs[a].served, s.pcs[a].exec))
    && (s.pcs[a].Attaching? || s.pcs[a].Acquiring? || s.pcs[a].Inserting? ==> s.place[a.call] == Nowhere)
    // only a cancelled scheduler withdraws a task or tells a waiter about it
    && (s.phase == Open ==> !s.pcs[a].Withdrawing? && (s.pcs[a].Notifying? ==> a.Worker? && s.pcs[a].owed == []))
  }

  // Where the history says a waiter is, it is: this fails only once the scheduler's context is cancelled.
  ghost predicate PlaceTrue(s: State, c: Call) {
    c in s.place && c in s.sent && Submitter(c) in s.pcs &&
    match s.place[c]
    case Nowhere => s.pcs[Submitter(c)] in {Attaching, Acquiring, Inserting, Refused}
    case AtTask(t) => s.table.Registered(t) && !s.table.heap[t].running && c in s.table.heap[t].waiters
    case AtNext(t) => s.table.Registered(t) && s.table.heap[t].running && c in s.table.heap[t].nextWaiters
    case InFlight(a) =>
      && a in s.pcs && RunsTask(s.pcs[a]) && c in s.pcs[a].served
      && s.table.Registered(s.pcs[a].task) && c in s.table.heap[s.pcs[a].task].waiters
    case Gone => s.sent[c] != [] || c in s.dead
  }

  ghost predicate WaiterOk(s: State, c: Call) {
    && AnswerOk(s, c)
    && (s.sent[c] != [] ==> s.place[c] == Gone)
    && (s.phase == Open ==> PlaceTrue(s, c))
  }

  ghost predicate KeyOk(s: State, k: Key) {
    k in s.table.tasks && s.table.tasks[k] in s.table.heap && s.table.heap[s.table.tasks[k]].key == k
  }

  ghost predicate UseOk(s: State, u: SlotUse) {
    match u case OfTask(t) => t in s.table.heap case OfAgent(a) => a in s.pcs
  }

  ghost function WaitingKeys(tb: Table): set<Key> {
    set k | k in tb.tasks && tb.tasks[k] in tb.heap && !tb.heap[tb.tasks[k]].running
  }

  ghost function RunningKeys(tb: Table): set<Key> {
    set k | k in tb.tasks && tb.tasks[k] in tb.heap && tb.heap[tb.tasks[k]].running
  }

  ghost predicate QueuesOk(s: State) {
    && NoRepeats(s.high) && NoRepeats(s.normal)
    && (forall t :: t in s.high ==> t in s.table.heap)
    && (forall t :: t in s.normal ==> t in s.table.heap)
  }

  ghost predicate SlotsOk(s: State) {
    s.slots == |s.uses| <= s.capacity
  }

  ghost predicate CountersOk(tb: Table) {
    tb.queued == |WaitingKeys(tb)| && tb.running == |RunningKeys(tb)|
  }

  ghost predicate Tasks(s: State) {
    && s.owner.Keys == s.table.heap.Keys
    && (forall t {:trigger TaskOk(s, t)} :: t in s.table.heap ==> TaskOk(s, t))
    && (forall k {:trigger KeyOk(s, k)} :: k in s.table.tasks ==> KeyOk(s, k))
  }

  ghost predicate Agents(s: State) {
    && (forall a {:trigger AgentOk(s, a)} :: a in s.pcs ==> AgentOk(s, a))
    && (forall u {:trigger UseOk(s, u)} :: u in s.uses ==> UseOk(s, u))
  }

  ghost predicate Waiters(s: State) {
    && s.requests.Keys == s.sent.Keys == s.place.Keys
    && (forall c {:trigger WaiterOk(s, c)} :: c in s.requests ==> WaiterOk(s, c))
  }

  // Until `Close` drops the task table.
  ghost predicate Running(s: State) {
    s.phase != Stopped && Tasks(s) && Agents(s) && Waiters(s) && QueuesOk(s) && SlotsOk(s) && CountersOk(s.table)
  }

  ghost predicate ExitedOk(s: State, a: Agent) {
    a in s.pcs && KindOk(a, s.pcs[a]) && (if a.Worker? then s.pcs[a] == Exited else a.call in s.requests)
  }

  // After it.
  ghost predicate Over(s: State) {
    && s.phase == Stopped
    && (forall a {:trigger ExitedOk(s, a)} :: a in s.pcs ==> ExitedOk(s, a))
    && (forall c {:trigger AnswerOk(s, c)} :: c in s.requests ==> AnswerOk(s, c))
    && s.requests.Keys == s.sent.Keys == s.place.Keys
  }

  ghost predicate Inv(s: State) {
    Running(s) || Over(s)
  }
}

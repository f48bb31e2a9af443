/**
  The refresh work queue: every work once, an URL that failed once more after a delay, never more
  than the limit at a time.
 */
module RefreshQueue {

  datatype Attempt = Attempt(work: nat, finalAttempt: bool)
  datatype Result = Result(attempt: Attempt, failed: bool)
  datatype Retry = Retry(work: nat, readyAt: nat)

  // Where a work is: what the queue's own variables say about it, work by work.
  datatype Place = Unstarted | Running(finalAttempt: bool) | Buffered(finalAttempt: bool) | Waiting | Done(runs: nat)

  // `urls` says which works have an URL; `buffered` is the result channel, of capacity `limit`.
  datatype Queue = Queue(urls: seq<bool>, limit: nat, active: nat, nextFirst: nat, retries: seq<Retry>,
                         running: set<Attempt>, buffered: seq<Result>, canceled: bool, stopped: bool, places: seq<Place>)

  datatype Event =
    | LaunchFirst
    | LaunchRetry(index: nat, now: nat)
    | Finish(attempt: Attempt, failed: bool)
    | Receive(again: bool, readyAt: nat)
    | Cancel
    | Stop

  const DefaultLimit: nat := 3

  function Asked(limit: int): nat {
    if limit <= 0 then DefaultLimit else limit
  }

  function Started(urls: seq<bool>, limit: int): Queue
    requires urls != []
  {
    Queue(urls, if Asked(limit) > |urls| then |urls| else Asked(limit), 0, 0, [], {}, [], false, false, seq(|urls|, _ => Unstarted))
  }

  predicate FirstReady(q: Queue, index: nat, now: nat) {
    && index < |q.retries| && q.retries[index].readyAt <= now
    && forall k :: 0 <= k < index ==> q.retries[k].readyAt > now
  }

  // The launching loops come before waiting for a result, and first attempts before retries.
  // Cancellation is looked at once per round, so that it does not stop a launching loop.
  predicate Enabled(q: Queue, e: Event) {
    match e
    case LaunchFirst => !q.stopped && q.active < q.limit && q.nextFirst < |q.urls|
    case LaunchRetry(index, now) =>
      !q.stopped && q.active < q.limit && q.nextFirst == |q.urls| && FirstReady(q, index, now)
    case Finish(a, _) => a in q.running && |q.buffered| < q.limit
    case Receive(_, _) => !q.stopped && q.buffered != [] && q.active > 0 && (q.active == q.limit || q.nextFirst == |q.urls|)
    case Cancel => true
    // Canceled, or nothing left to do; in both cases only once the workers are gone.
    case Stop => !q.stopped && q.running == {} && (q.canceled || (q.active == 0 && q.nextFirst == |q.urls| && q.retries == []))
  }

  predicate RunsAgain(q: Queue, r: Result, again: bool) {
    r.failed && r.attempt.work < |q.urls| && q.urls[r.attempt.work] && !r.attempt.finalAttempt && !q.canceled && again
  }

  function PlacedAt(q: Queue, work: nat, place: Place): seq<Place> {
    if work < |q.places| then q.places[work := place] else q.places
  }

  function Launched(q: Queue, a: Attempt): Queue {
    q.(active := q.active + 1, running := q.running + {a}, places := PlacedAt(q, a.work, Running(a.finalAttempt)))
  }

  function Next(q: Queue, e: Event): Queue
    requires Enabled(q, e)
  {
    match e
    case LaunchFirst => Launched(q, Attempt(q.nextFirst, false)).(nextFirst := q.nextFirst + 1)
    case LaunchRetry(index, _) =>
      Launched(q, Attempt(q.retries[index].work, true)).(retries := q.retries[..index] + q.retries[index + 1..])
    case Finish(a, failed) =>
      q.(running := q.running - {a}, buffered := q.buffered + [Result(a, failed)], places := PlacedAt(q, a.work, Buffered(a.finalAttempt)))
    case Receive(again, readyAt) =>
      var r := q.buffered[0];
      var rest := q.(active := q.active - 1, buffered := q.buffered[1..]);
      if RunsAgain(q, r, again) then
        rest.(retries := q.retries + [Retry(r.attempt.work, readyAt)], places := PlacedAt(q, r.attempt.work, Waiting))
      else rest.(places := PlacedAt(q, r.attempt.work, Done(if r.attempt.finalAttempt then 2 else 1)))
    case Cancel => q.(canceled := true)
    case Stop => q.(stopped := true)
  }

  // ---- the invariant, work by work ----

  ghost predicate InRetries(q: Queue, w: nat) {
    Listed(q.retries, w)
  }

  ghost predicate Listed(retries: seq<Retry>, w: nat) {
    exists k :: 0 <= k < |retries| && retries[k].work == w
  }

  ghost predicate InBuffer(q: Queue, a: Attempt) {
    exists k :: 0 <= k < |q.buffered| && q.buffered[k].attempt == a
  }

  // The variables and the work's place agree.
  ghost predicate WorkOk(q: Queue, w: nat)
    requires w < |q.places| == |q.urls|
  {
    var p := q.places[w];
    && (p == Unstarted <==> w >= q.nextFirst)
    && (Attempt(w, false) in q.running <==> p == Running(false)) && (Attempt(w, true) in q.running <==> p == Running(true))
    && (InBuffer(q, Attempt(w, false)) <==> p == Buffered(false)) && (InBuffer(q, Attempt(w, true)) <==> p == Buffered(true))
    && (InRetries(q, w) <==> p == Waiting)
    && (p.Waiting? || p == Running(true) || p == Buffered(true) || p == Done(2) ==> q.urls[w])
    && (p == Running(true) || p == Buffered(true) || p == Done(2) ==> q.nextFirst == |q.urls|)
    && (p.Done? ==> 1 <= p.runs <= 2)
  }

  ghost predicate ListsOk(q: Queue) {
    && (forall i, j :: 0 <= i < j < |q.buffered| ==> q.buffered[i].attempt.work != q.buffered[j].attempt.work)
    && (forall i, j :: 0 <= i < j < |q.retries| ==> q.retries[i].work != q.retries[j].work)
    && (forall a {:trigger a in q.running} :: a in q.running ==> a.work < |q.urls|)
    && (forall k {:trigger q.buffered[k]} :: 0 <= k < |q.buffered| ==> q.buffered[k].attempt.work < |q.urls|)
    && (forall k {:trigger q.retries[k]} :: 0 <= k < |q.retries| ==> q.retries[k].work < |q.urls|)
  }

  ghost predicate Inv(q: Queue) {
    && |q.places| == |q.urls| && 0 < q.limit <= |q.urls| && q.nextFirst <= |q.urls|
    && q.active == |q.running| + |q.buffered| <= q.limit
    && ListsOk(q)
    && (forall w: nat {:trigger WorkOk(q, w)} :: w < |q.urls| ==> WorkOk(q, w))
    && (q.stopped ==> q.running == {} && (q.canceled || (q.active == 0 && q.nextFirst == |q.urls| && q.retries == [])))
  }

  lemma StartedInv(urls: seq<bool>, limit: int)
    requires urls != []
    ensures Inv(Started(urls, limit))
  {
  }

  // ---- steps ----

  lemma LaunchFirstKeeps(q: Queue)
    requires Inv(q) && Enabled(q, LaunchFirst)
    ensures Inv(Next(q, LaunchFirst))
  {
    var q', v := Next(q, LaunchFirst), q.nextFirst;
    assert WorkOk(q, v);
    assert Attempt(v, false) !in q.running;
    forall w: nat {:trigger WorkOk(q', w)} | w < |q.urls| ensures WorkOk(q', w) {
      assert WorkOk(q, w);
      FrameLists(q, q', w);
    }
  }

  // Buffer and retry list unchanged.
  lemma FrameLists(q: Queue, q': Queue, w: nat)
    requires q'.buffered == q.buffered && q'.retries == q.retries
    ensures InRetries(q', w) == InRetries(q, w)
    ensures InBuffer(q', Attempt(w, false)) == InBuffer(q, Attempt(w, false)) && InBuffer(q', Attempt(w, true)) == InBuffer(q, Attempt(w, true))
  {
  }

  lemma LaunchRetryKeeps(q: Queue, index: nat, now: nat)
    requires Inv(q) && Enabled(q, LaunchRetry(index, now))
    ensures Inv(Next(q, LaunchRetry(index, now)))
  {
    var q', v := Next(q, LaunchRetry(index, now)), q.retries[index].work;
    assert WorkOk(q, v);
    assert InRetries(q, v);
    assert Attempt(v, true) !in q.running;
    forall w: nat {:trigger WorkOk(q', w)} | w < |q.urls| ensures WorkOk(q', w) {
      assert WorkOk(q, w);
      SameBuffer(q, q', w);
      RetryRemoved(q, index, w);
    }
  }

  lemma RetryRemoved(q: Queue, index: nat, w: nat)
    requires index < |q.retries| && ListsOk(q)
    ensures Listed(q.retries[..index] + q.retries[index + 1..], w) <==> Listed(q.retries, w) && w != q.retries[index].work
  {
    ListRemoved(q.retries, index, w);
  }

  lemma ListRemoved(retries: seq<Retry>, index: nat, w: nat)
    requires index < |retries| && forall i, j :: 0 <= i < j < |retries| ==> retries[i].work != retries[j].work
    ensures Listed(retries[..index] + retries[index + 1..], w) <==> Listed(retries, w) && w != retries[index].work
  {
    var rest := retries[..index] + retries[index + 1..];
    if Listed(retries, w) && w != retries[index].work {
      var k :| 0 <= k < |retries| && retries[k].work == w;
      assert rest[if k < index then k else k - 1].work == w;
    }
    if Listed(rest, w) {
      var k :| 0 <= k < |rest| && rest[k].work == w;
      assert retries[if k < index then k else k + 1].work == w;
    }
  }

  lemma FinishKeeps(q: Queue, a: Attempt, failed: bool)
    requires Inv(q) && Enabled(q, Finish(a, failed))
    ensures Inv(Next(q, Finish(a, failed)))
  {
    var q' := Next(q, Finish(a, failed));
    FinishLists(q, a, failed);
    hide WorkOk, ListsOk;
    forall w: nat {:trigger WorkOk(q', w)} | w < |q.urls| ensures WorkOk(q', w) { FinishWork(q, a, failed, w); }
  }

  lemma FinishLists(q: Queue, a: Attempt, failed: bool)
    requires Inv(q) && Enabled(q, Finish(a, failed))
    ensures ListsOk(Next(q, Finish(a, failed)))
  {
    assert WorkOk(q, a.work);
    forall k | 0 <= k < |q.buffered| ensures q.buffered[k].attempt.work != a.work {
      var b := q.buffered[k].attempt;
      assert b == Attempt(b.work, b.finalAttempt) && InBuffer(q, b);
      assert WorkOk(q, b.work);
      assert a == Attempt(a.work, a.finalAttempt);
    }
  }

  lemma FinishWork(q: Queue, a: Attempt, failed: bool, w: nat)
    requires Inv(q) && Enabled(q, Finish(a, failed)) && w < |q.urls|
    ensures WorkOk(Next(q, Finish(a, failed)), w)
  {
    var q' := Next(q, Finish(a, failed));
    assert WorkOk(q, w) && WorkOk(q, a.work);
    assert a == Attempt(a.work, a.finalAttempt);
    BufferAdded(q, q', Result(a, failed), Attempt(w, false));
    BufferAdded(q, q', Result(a, failed), Attempt(w, true));
    SameRetries(q, q', w);
    hide ListsOk, InBuffer, InRetries;
  }

  lemma SameBuffer(q: Queue, q': Queue, w: nat)
    requires q'.buffered == q.buffered
    ensures InBuffer(q', Attempt(w, false)) == InBuffer(q, Attempt(w, false)) && InBuffer(q', Attempt(w, true)) == InBuffer(q, Attempt(w, true))
  {
  }

  lemma SameRetries(q: Queue, q': Queue, w: nat)
    requires q'.retries == q.retries
    ensures InRetries(q', w) == InRetries(q, w)
  {
  }

  lemma BufferAdded(q: Queue, q': Queue, r: Result, a: Attempt)
    requires q'.buffered == q.buffered + [r]
    ensures InBuffer(q', a) <==> InBuffer(q, a) || r.attempt == a
  {
    assert q'.buffered[|q.buffered|] == r;
    if InBuffer(q, a) {
      var k :| 0 <= k < |q.buffered| && q.buffered[k].attempt == a;
      assert q'.buffered[k].attempt == a;
    }
  }

  lemma BufferRemoved(q: Queue, q': Queue, a: Attempt)
    requires ListsOk(q) && q.buffered != [] && q'.buffered == q.buffered[1..]
    ensures InBuffer(q', a) <==> InBuffer(q, a) && a.work != q.buffered[0].attempt.work
  {
    if InBuffer(q, a) && a.work != q.buffered[0].attempt.work {
      var k :| 0 <= k < |q.buffered| && q.buffered[k].attempt == a;
      assert q'.buffered[k - 1].attempt == a;
    }
    if InBuffer(q', a) {
      var k :| 0 <= k < |q'.buffered| && q'.buffered[k].attempt == a;
      assert q.buffered[k + 1].attempt == a;
    }
  }

  lemma RetryAdded(q: Queue, q': Queue, r: Retry, w: nat)
    requires q'.retries == q.retries + [r]
    ensures InRetries(q', w) <==> InRetries(q, w) || w == r.work
  {
    assert q'.retries[|q.retries|] == r;
    if Listed(q.retries, w) {
      var k :| 0 <= k < |q.retries| && q.retries[k].work == w;
      assert q'.retries[k].work == w;
    }
  }

  lemma ReceiveKeeps(q: Queue, again: bool, readyAt: nat)
    requires Inv(q) && Enabled(q, Receive(again, readyAt))
    ensures Inv(Next(q, Receive(again, readyAt)))
  {
    var q' := Next(q, Receive(again, readyAt));
    ReceiveLists(q, again, readyAt);
    hide WorkOk, ListsOk;
    forall w: nat {:trigger WorkOk(q', w)} | w < |q.urls| ensures WorkOk(q', w) { ReceiveWork(q, again, readyAt, w); }
  }

  lemma ReceiveLists(q: Queue, again: bool, readyAt: nat)
    requires Inv(q) && Enabled(q, Receive(again, readyAt))
    ensures ListsOk(Next(q, Receive(again, readyAt))) && q.buffered[0].attempt.work < |q.urls|
  {
    var r := q.buffered[0];
    var v := r.attempt.work;
    assert r.attempt == Attempt(v, r.attempt.finalAttempt) && InBuffer(q, r.attempt);
    assert WorkOk(q, v);
    forall k | 0 <= k < |q.retries| ensures q.retries[k].work != v { assert InRetries(q, q.retries[k].work); }
  }

  lemma ReceiveWork(q: Queue, again: bool, readyAt: nat, w: nat)
    requires Inv(q) && Enabled(q, Receive(again, readyAt)) && w < |q.urls|
    ensures WorkOk(Next(q, Receive(again, readyAt)), w)
  {
    var q', r := Next(q, Receive(again, readyAt)), q.buffered[0];
    var v := r.attempt.work;
    assert v < |q.urls|;
    assert r.attempt == Attempt(v, r.attempt.finalAttempt) && InBuffer(q, r.attempt);
    assert WorkOk(q, w) && WorkOk(q, v);
    BufferRemoved(q, q', Attempt(w, false));
    BufferRemoved(q, q', Attempt(w, true));
    if RunsAgain(q, r, again) {
      RetryAdded(q, q', Retry(v, readyAt), w);
    } else {
      SameRetries(q, q', w);
    }
    hide ListsOk, InBuffer, InRetries;
  }

  lemma StepKeeps(q: Queue, e: Event)
    requires Inv(q) && Enabled(q, e)
    ensures Inv(Next(q, e))
  {
    match e {
      case LaunchFirst => LaunchFirstKeeps(q);
      case LaunchRetry(index, now) => LaunchRetryKeeps(q, index, now);
      case Finish(a, failed) => FinishKeeps(q, a, failed);
      case Receive(again, readyAt) => ReceiveKeeps(q, again, readyAt);
      case Cancel => FlagsKeep(q, e);
      case Stop => FlagsKeep(q, e);
    }
  }

  lemma FlagsKeep(q: Queue, e: Event)
    requires Inv(q) && Enabled(q, e) && (e.Cancel? || e.Stop?)
    ensures Inv(Next(q, e))
  {
    var q' := Next(q, e);
    forall w: nat {:trigger WorkOk(q', w)} | w < |q.urls| ensures WorkOk(q', w) {
      assert WorkOk(q, w);
      FrameLists(q, q', w);
    }
  }

  // ---- every run ----

  ghost predicate Reaches(urls: seq<bool>, limit: int, events: seq<Event>, q: Queue)
    requires urls != []
    decreases |events|, 0
  {
    if events == [] then q == Started(urls, limit)
    else ReachesBy(urls, limit, events[..|events| - 1], events[|events| - 1], q)
  }

  ghost predicate ReachesBy(urls: seq<bool>, limit: int, init: seq<Event>, last: Event, q: Queue)
    requires urls != []
    decreases |init|, 1
  {
    exists before :: Reaches(urls, limit, init, before) && Enabled(before, last) && q == Next(before, last)
  }

  // How often a work was started.
  function Runs(p: Place): nat {
    match p
    case Unstarted => 0
    case Running(final) => if final then 2 else 1
    case Buffered(final) => if final then 2 else 1
    case Waiting => 1
    case Done(runs) => runs
  }

  predicate Launches(q: Queue, e: Event, w: nat) {
    (e.LaunchFirst? && w == q.nextFirst) || (e.LaunchRetry? && e.index < |q.retries| && w == q.retries[e.index].work)
  }

  // What is left to do with a work: at most six steps.
  function Weight(p: Place): nat {
    match p
    case Unstarted => 6
    case Running(final) => if final then 2 else 5
    case Buffered(final) => if final then 1 else 4
    case Waiting => 3
    case Done(_) => 0
  }

  function Total(places: seq<Place>): nat {
    if places == [] then 0 else Total(places[..|places| - 1]) + Weight(places[|places| - 1])
  }

  lemma {:induction false} TotalChanges(places: seq<Place>, w: nat, p: Place)
    requires w < |places|
    ensures Total(places[w := p]) == Total(places) - Weight(places[w]) + Weight(p)
  {
    var last := |places| - 1;
    if w == last {
      assert places[w := p][..last] == places[..last];
    } else {
      assert places[w := p][..last] == places[..last][w := p];
      TotalChanges(places[..last], w, p);
    }
  }

  predicate Works(e: Event) {
    e.LaunchFirst? || e.LaunchRetry? || e.Finish? || e.Receive?
  }

  // The work an event is about.
  function WorkOf(q: Queue, e: Event): nat
    requires Enabled(q, e) && Works(e)
  {
    if e.LaunchFirst? then q.nextFirst
    else if e.LaunchRetry? then q.retries[e.index].work
    else if e.Finish? then e.attempt.work
    else q.buffered[0].attempt.work
  }

  // Where the work of an event is before it.
  lemma PlaceBefore(q: Queue, e: Event)
    requires Inv(q) && Enabled(q, e) && Works(e)
    ensures var v := WorkOf(q, e);
            && v < |q.urls| == |q.places|
            && q.places[v] == (match e
                               case LaunchFirst => Unstarted
                               case LaunchRetry(_, _) => Waiting
                               case Finish(a, _) => Running(a.finalAttempt)
                               case _ => Buffered(q.buffered[0].attempt.finalAttempt))
  {
    var v := WorkOf(q, e);
    if e.LaunchRetry? { assert InRetries(q, v); }
    if e.Finish? { assert e.attempt == Attempt(v, e.attempt.finalAttempt); }
    if e.Receive? {
      var a := q.buffered[0].attempt;
      assert a == Attempt(v, a.finalAttempt) && InBuffer(q, a);
    }
    assert v < |q.urls| && WorkOk(q, v);
    hide InBuffer, InRetries, ListsOk;
  }

  // A work goes one step on its way, and the others stay where they are.
  lemma StepPlace(q: Queue, e: Event)
    requires Inv(q) && Enabled(q, e) && Works(e)
    ensures var w := WorkOf(q, e);
            && w < |q.places| && |Next(q, e).places| == |q.places| && Next(q, e).places == q.places[w := Next(q, e).places[w]]
            && Weight(Next(q, e).places[w]) < Weight(q.places[w])
            && Runs(Next(q, e).places[w]) == Runs(q.places[w]) + if e.LaunchFirst? || e.LaunchRetry? then 1 else 0
  {
    hide Inv, FirstReady;
    PlaceBefore(q, e);
  }

  lemma StepWork(q: Queue, e: Event)
    requires Inv(q) && Enabled(q, e) && Works(e)
    ensures Total(Next(q, e).places) < Total(q.places)
  {
    StepPlace(q, e);
    hide Inv, Next, Enabled;
    TotalChanges(q.places, WorkOf(q, e), Next(q, e).places[WorkOf(q, e)]);
  }

  lemma StepRuns(q: Queue, e: Event, w: nat)
    requires Inv(q) && Enabled(q, e) && w < |q.places|
    ensures w < |Next(q, e).places| && Runs(Next(q, e).places[w]) == Runs(q.places[w]) + if Launches(q, e, w) then 1 else 0
  {
    if Works(e) {
      StepPlace(q, e);
    }
    hide Inv, Runs, Weight;
  }

  function CountWork(events: seq<Event>): nat {
    if events == [] then 0 else CountWork(events[..|events| - 1]) + if Works(events[|events| - 1]) then 1 else 0
  }

  lemma {:induction false} TotalStart(n: nat)
    ensures Total(seq(n, _ => Unstarted)) == 6 * n
  {
    if n > 0 {
      assert seq(n, _ => Unstarted)[..n - 1] == seq(n - 1, _ => Unstarted);
      TotalStart(n - 1);
    }
  }

  // The invariant in every reachable state; and a run has at most six working steps per work,
  // whatever the workers reply.
  lemma {:induction false} EveryRun(urls: seq<bool>, limit: int, events: seq<Event>, q: Queue)
    requires urls != [] && Reaches(urls, limit, events, q)
    ensures Inv(q) && q.urls == urls && q.limit == Started(urls, limit).limit
    ensures CountWork(events) + Total(q.places) <= 6 * |urls|
  {
    hide Inv;
    if events == [] {
      StartedInv(urls, limit);
      TotalStart(|urls|);
    } else {
      var last := events[|events| - 1];
      var before :| Reaches(urls, limit, events[..|events| - 1], before) && Enabled(before, last) && q == Next(before, last);
      EveryRun(urls, limit, events[..|events| - 1], before);
      StepKeeps(before, last);
      if Works(last) {
        StepWork(before, last);
      }
    }
  }

  // Never more than the limit at once, nor than there are works, and three without a limit; and a worker always has room for its result, canceled or
  // not, so that waiting for the workers ends.
  lemma LimitHeld(urls: seq<bool>, limit: int, events: seq<Event>, q: Queue)
    requires urls != [] && Reaches(urls, limit, events, q)
    ensures |q.running| <= q.limit <= |urls| && (q.limit == |urls| || q.limit == if limit <= 0 then 3 else limit)
    ensures q.limit <= if limit <= 0 then 3 else limit
    ensures forall a, failed :: a in q.running ==> Enabled(q, Finish(a, failed))
  {
    EveryRun(urls, limit, events, q);
    hide Reaches, WorkOk, ListsOk;
    forall a | a in q.running ensures |q.buffered| < q.limit {
      assert q.running == q.running - {a} + {a};
    }
  }

  // Each work is started at most twice, one without an URL at most once, and no second time before
  // every work was started once.
  lemma StartsHeld(urls: seq<bool>, limit: int, events: seq<Event>, q: Queue, w: nat)
    requires urls != [] && Reaches(urls, limit, events, q) && w < |urls|
    ensures w < |q.places| && Runs(q.places[w]) <= if urls[w] then 2 else 1
    ensures Runs(q.places[w]) == 2 ==> forall v :: 0 <= v < |urls| ==> v < |q.places| && Runs(q.places[v]) >= 1
  {
    EveryRun(urls, limit, events, q);
    assert WorkOk(q, w);
    forall v: nat | v < |urls| && Runs(q.places[w]) == 2 ensures Runs(q.places[v]) >= 1 { assert WorkOk(q, v); }
  }

  // Ended without cancellation: every work has run, and nothing is left.
  lemma AllRun(urls: seq<bool>, limit: int, events: seq<Event>, q: Queue, w: nat)
    requires urls != [] && Reaches(urls, limit, events, q) && q.stopped && !q.canceled && w < |urls|
    ensures w < |q.places| && q.places[w].Done? && q.places[w].runs >= 1
  {
    EveryRun(urls, limit, events, q);
    assert WorkOk(q, w);
  }

  // ---- exactly when a work is started again ----

  // Told to run again: it waits for its second start or has had it.
  predicate Again(p: Place) {
    p.Waiting? || p == Running(true) || p == Buffered(true) || p == Done(2)
  }

  lemma AgainReceived(q: Queue, again: bool, readyAt: nat, w: nat)
    requires Inv(q) && Enabled(q, Receive(again, readyAt)) && w < |q.urls|
    ensures |q.places| == |Next(q, Receive(again, readyAt)).places| == |q.urls|
    ensures Again(Next(q, Receive(again, readyAt)).places[w]) <==>
            Again(q.places[w]) || (q.urls[w] && again && !q.canceled && q.buffered[0] == Result(Attempt(w, false), true))
  {
    hide Inv;
    PlaceBefore(q, Receive(again, readyAt));
  }

  lemma AgainElse(q: Queue, e: Event, w: nat)
    requires Inv(q) && Enabled(q, e) && !e.Receive? && w < |q.urls|
    ensures |q.places| == |Next(q, e).places| == |q.urls| && (Again(Next(q, e).places[w]) <==> Again(q.places[w]))
  {
    hide Inv, FirstReady;
    InvSizes(q);
    match e {
      case LaunchFirst => PlaceBefore(q, e);
      case LaunchRetry(_, _) => PlaceBefore(q, e);
      case Finish(_, _) => PlaceBefore(q, e);
      case _ =>
    }
  }

  lemma AgainStep(q: Queue, e: Event, w: nat)
    requires Inv(q) && Enabled(q, e) && w < |q.urls|
    ensures |q.places| == |q.urls| && |Next(q, e).places| == |q.urls|
    ensures Again(Next(q, e).places[w]) <==>
            Again(q.places[w]) || (q.urls[w] && e.Receive? && e.again && !q.canceled && q.buffered[0] == Result(Attempt(w, false), true))
  {
    hide Inv, Next, Again;
    if e.Receive? {
      AgainReceived(q, e.again, e.readyAt, w);
    } else {
      AgainElse(q, e, w);
    }
  }

  // What the workers have sent into the result channel, first to last.
  function Sent(events: seq<Event>): seq<Result> {
    if events == [] then []
    else
      var init, last := Sent(events[..|events| - 1]), events[|events| - 1];
      if last.Finish? then init + [Result(last.attempt, last.failed)] else init
  }

  function Received(events: seq<Event>): nat {
    if events == [] then 0 else Received(events[..|events| - 1]) + if events[|events| - 1].Receive? then 1 else 0
  }

  // The k-th event takes the failure of the work's first attempt from the channel, before anything
  // is canceled, and the error is worth a second attempt.
  predicate TellsAgain(events: seq<Event>, k: nat, w: nat) {
    && k < |events| && events[k].Receive? && events[k].again && Cancel !in events[..k]
    && Received(events[..k]) < |Sent(events[..k])| && Sent(events[..k])[Received(events[..k])] == Result(Attempt(w, false), true)
  }

  lemma TellsPrefix(init: seq<Event>, last: Event, w: nat)
    ensures (exists k :: TellsAgain(init + [last], k, w)) <==> (exists k :: TellsAgain(init, k, w)) || TellsAgain(init + [last], |init|, w)
  {
    hide Sent, Received;
    forall k | 0 <= k < |init| ensures (init + [last])[..k] == init[..k] && (init + [last])[k] == init[k] { }
    if k :| TellsAgain(init, k, w) { assert TellsAgain(init + [last], k, w); }
    if k :| TellsAgain(init + [last], k, w) && k != |init| { assert TellsAgain(init, k, w); }
  }

  lemma ChannelStep(q: Queue, e: Event, events: seq<Event>)
    requires Enabled(q, e)
    requires Received(events) <= |Sent(events)| && q.buffered == Sent(events)[Received(events)..] && (q.canceled <==> Cancel in events)
    ensures var all := events + [e];
            Received(all) <= |Sent(all)| && Next(q, e).buffered == Sent(all)[Received(all)..] && (Next(q, e).canceled <==> Cancel in all)
  {
    assert (events + [e])[..|events|] == events;
  }

  lemma {:induction false} Channel(urls: seq<bool>, limit: int, events: seq<Event>, q: Queue)
    requires urls != [] && Reaches(urls, limit, events, q)
    ensures Received(events) <= |Sent(events)| && q.buffered == Sent(events)[Received(events)..] && (q.canceled <==> Cancel in events)
  {
    hide Sent, Received, Next, Enabled;
    if events == [] {
      NothingSent();
    } else {
      var init, last := events[..|events| - 1], events[|events| - 1];
      var before :| Reaches(urls, limit, init, before) && Enabled(before, last) && q == Next(before, last);
      Channel(urls, limit, init, before);
      ChannelStep(before, last, init);
      assert events == init + [last];
    }
  }

  lemma NothingSent()
    ensures Sent([]) == [] && Received([]) == 0
  {
  }

  // In every run: a work is told to run again exactly if it has an URL and the failure of its first
  // attempt was so received.
  lemma {:induction false} AgainExactly(urls: seq<bool>, limit: int, events: seq<Event>, q: Queue, w: nat)
    requires urls != [] && Reaches(urls, limit, events, q) && w < |urls|
    ensures w < |q.places| && (Again(q.places[w]) <==> urls[w] && exists k :: TellsAgain(events, k, w))
  {
    hide Sent, Received, Inv, Next, Enabled;
    EveryRun(urls, limit, events, q);
    InvSizes(q);
    if events != [] {
      var init, last := events[..|events| - 1], events[|events| - 1];
      var before :| Reaches(urls, limit, init, before) && Enabled(before, last) && q == Next(before, last);
      EveryRun(urls, limit, init, before);
      InvSizes(before);
      AgainExactly(urls, limit, init, before, w);
      AgainStep(before, last, w);
      Channel(urls, limit, init, before);
      assert events == init + [last] && events[..|init|] == init;
      TellsPrefix(init, last, w);
      if last.Receive? { ReceivesSome(before, last); }
    } else {
      NotAgain(urls, limit, w);
    }
  }

  lemma NotAgain(urls: seq<bool>, limit: int, w: nat)
    requires w < |urls|
    ensures !Again(Started(urls, limit).places[w])
  {
  }

  lemma InvSizes(q: Queue)
    requires Inv(q)
    ensures |q.places| == |q.urls|
  {
  }

  lemma ReceivesSome(q: Queue, e: Event)
    requires Enabled(q, e) && e.Receive?
    ensures q.buffered != []
  {
  }

  // Each retry on the list was put there by such an event, with the time it becomes due.
  ghost predicate Told(events: seq<Event>, r: Retry) {
    exists k: nat :: TellsAgain(events, k, r.work) && events[k].readyAt == r.readyAt
  }

  lemma ToldOn(init: seq<Event>, last: Event, r: Retry)
    requires Told(init, r)
    ensures Told(init + [last], r)
  {
    hide Sent, Received;
    var k: nat :| TellsAgain(init, k, r.work) && init[k].readyAt == r.readyAt;
    assert (init + [last])[..k] == init[..k] && (init + [last])[k] == init[k];
    assert TellsAgain(init + [last], k, r.work);
  }

  lemma RetriesStep(q: Queue, e: Event, init: seq<Event>, r: Retry)
    requires Enabled(q, e) && r in Next(q, e).retries
    requires Received(init) <= |Sent(init)| && q.buffered == Sent(init)[Received(init)..] && (q.canceled <==> Cancel in init)
    ensures r in q.retries || Told(init + [e], r)
  {
    hide Sent, Received;
    if r !in q.retries {
      var a := q.buffered[0].attempt;
      assert e.Receive? && q.buffered[0] == Result(Attempt(a.work, false), true) && r == Retry(a.work, e.readyAt);
      assert (init + [e])[..|init|] == init;
      assert TellsAgain(init + [e], |init|, r.work);
    }
  }

  lemma {:induction false} RetriesTold(urls: seq<bool>, limit: int, events: seq<Event>, q: Queue)
    requires urls != [] && Reaches(urls, limit, events, q)
    ensures forall r {:trigger r in q.retries} :: r in q.retries ==> Told(events, r)
  {
    hide Sent, Received, Next, Enabled, Told;
    if events == [] {
      NoRetries(urls, limit);
    } else {
      var init, last := events[..|events| - 1], events[|events| - 1];
      var before :| Reaches(urls, limit, init, before) && Enabled(before, last) && q == Next(before, last);
      RetriesTold(urls, limit, init, before);
      Channel(urls, limit, init, before);
      assert events == init + [last];
      forall r {:trigger r in q.retries} | r in q.retries ensures Told(events, r) {
        RetriesStep(before, last, init, r);
        if r in before.retries { ToldOn(init, last, r); }
      }
    }
  }

  lemma NoRetries(urls: seq<bool>, limit: int)
    requires urls != []
    ensures Started(urls, limit).retries == []
  {
  }

  // And it is launched only once that time has come.
  lemma RetryDue(urls: seq<bool>, limit: int, events: seq<Event>, q: Queue, index: nat, now: nat)
    requires urls != [] && Reaches(urls, limit, events, q) && Enabled(q, LaunchRetry(index, now))
    ensures exists k: nat :: TellsAgain(events, k, q.retries[index].work) && events[k].readyAt <= now
  {
    hide Reaches, Sent, Received;
    RetriesTold(urls, limit, events, q);
    assert q.retries[index] in q.retries;
  }

  // A second start has that reason; and where nothing is canceled, every such work gets it.
  lemma SecondStart(urls: seq<bool>, limit: int, events: seq<Event>, q: Queue, w: nat)
    requires urls != [] && Reaches(urls, limit, events, q) && w < |urls|
    ensures w < |q.places|
    ensures Runs(q.places[w]) == 2 ==> urls[w] && exists k :: TellsAgain(events, k, w)
    ensures q.stopped && !q.canceled ==> (Runs(q.places[w]) == 2 <==> urls[w] && exists k :: TellsAgain(events, k, w))
  {
    hide Inv, TellsAgain, Reaches;
    AgainExactly(urls, limit, events, q, w);
    if q.stopped && !q.canceled { AllRun(urls, limit, events, q, w); }
  }

  // Until it has ended, the queue can always do something; waiting for a retry only takes time.
  lemma NeverStuck(urls: seq<bool>, limit: int, events: seq<Event>, q: Queue)
    requires urls != [] && Reaches(urls, limit, events, q) && !q.stopped
    ensures exists e: Event :: Enabled(q, e) && (Works(e) || e.Stop?)
  {
    EveryRun(urls, limit, events, q);
    if q.running != {} {
      var a :| a in q.running;
      LimitHeld(urls, limit, events, q);
      assert Enabled(q, Finish(a, false)) && Works(Finish(a, false));
    } else if q.canceled {
      assert Enabled(q, Stop);
    } else if q.active < q.limit && q.nextFirst < |q.urls| {
      assert Enabled(q, LaunchFirst) && Works(LaunchFirst);
    } else if q.buffered != [] {
      assert Enabled(q, Receive(false, 0)) && Works(Receive(false, 0));
    } else if q.retries != [] {
      var e := LaunchRetry(0, q.retries[0].readyAt);
      assert Enabled(q, e) && Works(e);
    } else {
      assert Enabled(q, Stop);
    }
  }

  // ---- the coordinator's loops ----

  function LaunchFirsts(q: Queue): Queue
    decreases |q.urls| - q.nextFirst
  {
    if Enabled(q, LaunchFirst) then LaunchFirsts(Next(q, LaunchFirst)) else q
  }

  function LaunchRetries(q: Queue, now: nat): Queue
    decreases |q.retries|
  {
    var index := ReadyIndex(q.retries, now);
    if index < |q.retries| && Enabled(q, LaunchRetry(index, now)) then LaunchRetries(Next(q, LaunchRetry(index, now)), now) else q
  }

  function ReadyIndex(retries: seq<Retry>, now: nat): (index: nat)
    ensures index <= |retries|
    ensures index < |retries| ==> retries[index].readyAt <= now
    ensures forall k :: 0 <= k < index ==> retries[k].readyAt > now
  {
    if retries == [] then 0
    else
      var init := ReadyIndex(retries[..|retries| - 1], now);
      if init < |retries| - 1 || retries[|retries| - 1].readyAt <= now then init else |retries|
  }

  lemma {:induction false} LaunchingKeeps(q: Queue, now: nat)
    requires Inv(q)
    ensures Inv(LaunchFirsts(q)) && Inv(LaunchRetries(q, now))
    decreases |q.urls| - q.nextFirst, |q.retries|
  {
    hide Inv;
    QueueBounds(q);
    if Enabled(q, LaunchFirst) {
      StepKeeps(q, LaunchFirst);
      LaunchingKeeps(Next(q, LaunchFirst), now);
    }
    var e := LaunchRetry(ReadyIndex(q.retries, now), now);
    if e.index < |q.retries| && Enabled(q, e) {
      StepKeeps(q, e);
      LaunchingKeeps(Next(q, e), now);
    }
  }

  lemma QueueBounds(q: Queue)
    requires Inv(q)
    ensures q.nextFirst <= |q.urls|
  {
  }

  class Coordinator {
    const urls: seq<bool>
    const limit: nat
    var active: nat
    var nextFirst: nat
    var retries: seq<Retry>
    var running: set<Attempt>
    var buffered: seq<Result>
    ghost var places: seq<Place>

    constructor (works: seq<bool>, given: int)
      requires works != []
      ensures State(false) == Started(works, given)
    {
      urls := works;
      limit := if Asked(given) > |works| then |works| else Asked(given);
      active, nextFirst, retries, running, buffered := 0, 0, [], {}, [];
      places := seq(|works|, _ => Unstarted);
    }

    ghost function State(canceled: bool): Queue
      reads this
    {
      Queue(urls, limit, active, nextFirst, retries, running, buffered, canceled, false, places)
    }

    method Launch(a: Attempt, ghost canceled: bool)
      modifies this
      ensures State(canceled) == Launched(old(State(canceled)), a)
    {
      active := active + 1;
      running := running + {a};
      places := PlacedAt(State(canceled), a.work, Running(a.finalAttempt));
    }

    // Whether the context is canceled makes no difference to the launching loops.
    method LaunchFirstAttempts(ghost canceled: bool)
      requires Inv(State(canceled))
      modifies this
      ensures State(canceled) == LaunchFirsts(old(State(canceled)))
    {
      hide Inv;
      ghost var goal := LaunchFirsts(State(canceled));
      while active < limit && nextFirst < |urls|
        invariant LaunchFirsts(State(canceled)) == goal
        decreases |urls| - nextFirst
      {
        Launch(Attempt(nextFirst, false), canceled);
        nextFirst := nextFirst + 1;
      }
    }

    method FindReady(now: nat) returns (index: nat)
      ensures index == ReadyIndex(retries, now)
    {
      for i := 0 to |retries|
        invariant ReadyIndex(retries[..i], now) == i
      {
        assert retries[..i + 1][..i] == retries[..i];
        if retries[i].readyAt <= now {
          ReadyFound(retries, now, i);
          return i;
        }
      }
      assert retries[..|retries|] == retries;
      return |retries|;
    }

    method LaunchReadyRetries(now: nat, ghost canceled: bool)
      modifies this
      ensures State(canceled) == LaunchRetries(old(State(canceled)), now)
    {
      hide LaunchRetries, ReadyIndex, Enabled, Next;
      ghost var goal := LaunchRetries(State(canceled), now);
      if nextFirst != |urls| {
        LaunchRetriesEnds(State(canceled), now);
      }
      if nextFirst == |urls| {
        while active < limit
          invariant LaunchRetries(State(canceled), now) == goal && nextFirst == |urls|
          decreases |retries|
        {
          var ready := FindReady(now);
          LaunchRetriesStep(State(canceled), now);
          if ready == |retries| {
            return;
          }
          ghost var q := State(canceled);
          var attempt := Attempt(retries[ready].work, true);
          retries := retries[..ready] + retries[ready + 1..];
          Launch(attempt, canceled);
        }
        LaunchRetriesEnds(State(canceled), now);
      }
    }

    // The reply of `shouldRetry` is `again`; nothing is retried once the context is canceled.
    method HandleResult(again: bool, readyAt: nat, canceled: bool)
      requires Enabled(State(canceled), Receive(again, readyAt))
      modifies this
      ensures State(canceled) == Next(old(State(canceled)), Receive(again, readyAt))
    {
      var result := buffered[0];
      ghost var was := State(canceled);
      buffered := buffered[1..];
      active := active - 1;
      if result.failed && result.attempt.work < |urls| && urls[result.attempt.work] && !result.attempt.finalAttempt && !canceled && again {
        retries := retries + [Retry(result.attempt.work, readyAt)];
        places := PlacedAt(was, result.attempt.work, Waiting);
      } else {
        places := PlacedAt(was, result.attempt.work, Done(if result.attempt.finalAttempt then 2 else 1));
      }
    }
  }

  lemma LaunchRetriesEnds(q: Queue, now: nat)
    requires q.active >= q.limit || q.nextFirst != |q.urls|
    ensures LaunchRetries(q, now) == q
  {
  }

  lemma LaunchRetriesStep(q: Queue, now: nat)
    requires q.active < q.limit && q.nextFirst == |q.urls| && !q.stopped
    ensures var index := ReadyIndex(q.retries, now);
            if index == |q.retries| then LaunchRetries(q, now) == q
            else
              LaunchRetries(q, now) ==
              LaunchRetries(Launched(q, Attempt(q.retries[index].work, true)).(retries := q.retries[..index] + q.retries[index + 1..]), now)
  {
    hide ReadyIndex;
    var index := ReadyIndex(q.retries, now);
    if index < |q.retries| {
      assert Enabled(q, LaunchRetry(index, now));
    }
  }

  lemma {:induction false} ReadyFound(retries: seq<Retry>, now: nat, i: nat)
    requires i < |retries| && retries[i].readyAt <= now && ReadyIndex(retries[..i], now) == i
    ensures ReadyIndex(retries, now) == i
  {
    if i < |retries| - 1 {
      assert retries[..|retries| - 1][..i] == retries[..i];
      ReadyFound(retries[..|retries| - 1], now, i);
    }
  }
}

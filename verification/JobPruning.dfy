/**
  Keeping the list of import jobs short: jobs a restart interrupted are canceled, old ones go, and of
  the others the best hundred stay.
 */
module JobPruning {
  import opened Orders

  datatype JobStatus = Parsed | Running | Completed | Failed | Canceled

  // Times are instants counted in nanoseconds from the zero time, which is 0.
  datatype Job = Job(id: string, status: JobStatus, error: string, probePending: nat, nodeIds: seq<string>, createdAt: nat, updatedAt: nat)

  type JobMap = map<string, Job>

  const MaxStoredJobs: nat := 100
  const MaxAge: nat := 7 * 24 * 3_600_000_000_000

  // A job as the table has it.
  function Compact(job: Job): Job {
    if job.status in {Completed, Failed, Canceled} then job.(nodeIds := []) else job
  }

  ghost predicate Agree(jobs: JobMap, table: JobMap, id: string) {
    (id in table <==> id in jobs) && (id in jobs ==> table[id] == Compact(jobs[id]))
  }

  ghost predicate Keyed(jobs: JobMap) {
    forall id {:trigger jobs[id]} :: id in jobs ==> jobs[id].id == id
  }

  function At(job: Job): nat {
    if job.updatedAt == 0 then job.createdAt else job.updatedAt
  }

  function Recovered(job: Job, now: nat): Job {
    if job.status == Running then job.(status := Canceled, error := "程序重启，任务已中断", probePending := 0, updatedAt := now)
    else job
  }

  // At runtime a running job is none of the pruning's business.
  predicate Considered(job: Job, recover: bool) {
    job.status != Running || recover
  }

  predicate Expired(job: Job, now: nat) {
    At(job) != 0 && now > At(job) && now - At(job) > MaxAge
  }

  // ---- the order of retention ----

  datatype Entry = Entry(id: string, at: nat, parsed: bool)

  predicate Before(a: string, b: string) {
    b != [] && (a == [] || a[0] < b[0] || (a[0] == b[0] && Before(a[1..], b[1..])))
  }

  // Parsed jobs first, then later ones, then by id.
  predicate Outranks(a: Entry, b: Entry) {
    if a.parsed != b.parsed then a.parsed
    else if a.at == b.at then Before(a.id, b.id)
    else a.at > b.at
  }

  lemma {:induction false} BeforeTotal(a: string, b: string)
    ensures a == b || Before(a, b) || Before(b, a)
    ensures !(Before(a, b) && Before(b, a)) && !Before(a, a)
  {
    if a != [] {
      if b != [] {
        BeforeTotal(a[1..], b[1..]);
        assert a == [a[0]] + a[1..] && b == [b[0]] + b[1..];
      }
      BeforeTotal(a[1..], a[1..]);
    }
  }

  lemma {:induction false} BeforeThrough(a: string, b: string, c: string)
    requires Before(a, b) && Before(b, c)
    ensures Before(a, c)
  {
    if a != [] && a[0] == b[0] == c[0] {
      BeforeThrough(a[1..], b[1..], c[1..]);
    }
  }

  lemma OneOutranks(a: Entry, b: Entry)
    ensures a.id != b.id ==> Outranks(a, b) || Outranks(b, a)
    ensures !(Outranks(a, b) && Outranks(b, a))
  {
    BeforeTotal(a.id, b.id);
  }

  lemma OutranksThrough(a: Entry, b: Entry, c: Entry)
    requires Outranks(a, b) && Outranks(b, c)
    ensures Outranks(a, c)
  {
    if Before(a.id, b.id) && Before(b.id, c.id) {
      BeforeThrough(a.id, b.id, c.id);
    }
  }

  ghost predicate Ranked(entries: seq<Entry>) {
    forall i, j :: 0 <= i < j < |entries| ==> Outranks(entries[i], entries[j]) && entries[i].id != entries[j].id
  }

  function EntryIds(entries: seq<Entry>): set<string> {
    set e | e in entries :: e.id
  }

  // Where a new entry belongs.
  function Inserted(entries: seq<Entry>, e: Entry): (r: seq<Entry>)
    ensures |r| == |entries| + 1 && forall x {:trigger x in r} :: x in r <==> x in entries || x == e
  {
    if entries == [] || Outranks(e, entries[0]) then [e] + entries
    else
      var rest := Inserted(entries[1..], e);
      assert entries == [entries[0]] + entries[1..];
      [entries[0]] + rest
  }

  lemma {:induction false} InsertedRanked(entries: seq<Entry>, e: Entry)
    requires Ranked(entries) && e.id !in EntryIds(entries)
    ensures Ranked(Inserted(entries, e))
  {
    if entries != [] {
      assert entries[0] in entries;
      OneOutranks(e, entries[0]);
      var rest := entries[1..];
      if Outranks(e, entries[0]) {
        forall j | 0 <= j < |entries| ensures Outranks(e, entries[j]) && e.id != entries[j].id {
          assert entries[j] in entries;
          if j > 0 { OutranksThrough(e, entries[0], entries[j]); }
        }
      } else {
        assert forall x :: x in rest ==> x in entries;
        InsertedRanked(rest, e);
        var r := Inserted(rest, e);
        forall j | 0 <= j < |r| ensures Outranks(entries[0], r[j]) && entries[0].id != r[j].id {
          assert r[j] in r;
          if r[j] != e {
            var k :| 0 <= k < |rest| && rest[k] == r[j];
            assert rest[k] == entries[k + 1];
          }
        }
      }
    }
  }

  // The entries in order of retention.
  function Ranking(entries: seq<Entry>): (r: seq<Entry>)
    ensures |r| == |entries| && forall x {:trigger x in r} :: x in r <==> x in entries
  {
    if entries == [] then []
    else
      var init, last := entries[..|entries| - 1], entries[|entries| - 1];
      assert entries == init + [last];
      Inserted(Ranking(init), last)
  }

  ghost predicate DistinctEntries(entries: seq<Entry>) {
    forall i, j :: 0 <= i < j < |entries| ==> entries[i].id != entries[j].id
  }

  lemma {:induction false} RankingRanked(entries: seq<Entry>)
    requires DistinctEntries(entries)
    ensures Ranked(Ranking(entries))
  {
    if entries != [] {
      var init, last := entries[..|entries| - 1], entries[|entries| - 1];
      RankingRanked(init);
      InsertedRanked(Ranking(init), last);
    }
  }

  // ---- what pruning is for ----

  // The jobs that may stay or have to go for want of room.
  function Candidates(jobs: JobMap, now: nat, recover: bool): set<string> {
    set id | id in jobs && Considered(jobs[id], recover) && !Expired(Recovered(jobs[id], now), now)
  }

  function EntryOf(jobs: JobMap, now: nat, id: string): Entry
    requires id in jobs
  {
    var job := Recovered(jobs[id], now);
    Entry(id, At(job), job.status == Parsed)
  }

  function Min(a: nat, b: nat): nat {
    if a < b then a else b
  }

  // Running jobs untouched, expired ones gone, and of the others the best that fit, interrupted ones canceled.
  ghost predicate Pruned(before: JobMap, after: JobMap, now: nat, recover: bool) {
    var all := Candidates(before, now, recover);
    && after.Keys <= before.Keys
    && (forall id {:trigger before[id]} :: id in before && !Considered(before[id], recover) ==> id in after && after[id] == before[id])
    && (forall id {:trigger after[id]} :: id in after && Considered(before[id], recover) ==> id in all && after[id] == Recovered(before[id], now))
    && |after.Keys * all| == Min(MaxStoredJobs, |all|)
    && (forall a, b {:trigger EntryOf(before, now, a), EntryOf(before, now, b)} :: a in all && a in after && b in all && b !in after ==>
          Outranks(EntryOf(before, now, a), EntryOf(before, now, b)))
  }

  // When a job was last touched; an interrupted one is when it is canceled.
  function Touched(job: Job, now: nat): nat {
    var at := if job.status == Running then now else job.updatedAt;
    if at != 0 then at else job.createdAt
  }

  predicate Ahead(a: Job, idA: string, b: Job, idB: string, now: nat) {
    || (a.status == Parsed && b.status != Parsed)
    || ((a.status == Parsed <==> b.status == Parsed)
        && (Touched(a, now) > Touched(b, now) || (Touched(a, now) == Touched(b, now) && Before(idA, idB))))
  }

  predicate Recent(job: Job, now: nat) {
    Touched(job, now) == 0 || now - Touched(job, now) <= 604_800_000_000_000
  }

  // At runtime running jobs are no subject of the pruning.
  predicate Subject(job: Job, recover: bool) {
    job.status != Running || recover
  }

  lemma CandidateIs(before: JobMap, now: nat, recover: bool, id: string)
    ensures id in Candidates(before, now, recover) <==> id in before && Subject(before[id], recover) && Recent(before[id], now)
  {
  }

  lemma AheadIs(before: JobMap, now: nat, a: string, b: string)
    requires a in before && b in before && Outranks(EntryOf(before, now, a), EntryOf(before, now, b))
    ensures Ahead(before[a], a, before[b], b, now)
  {
    hide Before;
  }

  // What pruning makes of one job that is left.
  predicate LeftAs(job: Job, after: Job, now: nat, recover: bool) {
    if !Subject(job, recover) then after == job
    else
      && Recent(job, now)
      && after == if job.status == Running then job.(status := Canceled, error := after.error, probePending := 0, updatedAt := now) else job
  }

  function Subjects(before: JobMap, after: JobMap, recover: bool): set<string> {
    set id | id in after && id in before && Subject(before[id], recover)
  }

  // In terms of the jobs alone: at runtime running jobs stay; of the others none that was touched more
  // than a week ago is left, and at most a hundred are; a later one goes only if a hundred are left, all
  // of them parsed where it is not, or touched later, or as late with a smaller id.
  lemma PrunedMeans(before: JobMap, after: JobMap, now: nat, recover: bool)
    requires Pruned(before, after, now, recover)
    ensures forall id {:trigger before[id]} :: id in before && !Subject(before[id], recover) ==> id in after
    ensures forall id {:trigger after[id]} :: id in after ==> id in before && LeftAs(before[id], after[id], now, recover)
    ensures |Subjects(before, after, recover)| <= 100
    ensures forall b {:trigger before[b]} :: b in before && b !in after && Recent(before[b], now) ==>
              && |Subjects(before, after, recover)| == 100
              && forall a {:trigger after[a]} :: a in after && Subject(before[a], recover) ==> Ahead(before[a], a, before[b], b, now)
  {
    hide Recent, Ahead, Outranks, Candidates, EntryOf;
    var all, left := Candidates(before, now, recover), Subjects(before, after, recover);
    forall id ensures id in all <==> id in before && Subject(before[id], recover) && Recent(before[id], now) {
      CandidateIs(before, now, recover, id);
    }
    SubjectsAre(before, after, recover, all);
    forall b {:trigger before[b]} | b in before && b !in after && Recent(before[b], now)
      ensures |left| == 100
      ensures forall a {:trigger after[a]} :: a in after && Subject(before[a], recover) ==> Ahead(before[a], a, before[b], b, now)
    {
      if |left| < 100 {
        OneLeftOut(left, all, b);
      }
      forall a {:trigger after[a]} | a in after && Subject(before[a], recover) ensures Ahead(before[a], a, before[b], b, now) {
        AheadIs(before, now, a, b);
      }
    }
  }

  lemma SubjectsAre(before: JobMap, after: JobMap, recover: bool, all: set<string>)
    requires all <= before.Keys && (forall id :: id in all ==> Subject(before[id], recover)) && after.Keys <= before.Keys
    requires forall id {:trigger after[id]} :: id in after && Subject(before[id], recover) ==> id in all
    ensures Subjects(before, after, recover) == after.Keys * all
  {
    hide Subject;
  }

  lemma OneLeftOut(left: set<string>, all: set<string>, b: string)
    requires left <= all && b in all && b !in left
    ensures |left| < |all|
  {
    assert all == left + (all - left) && b in all - left;
  }

  // That says exactly which jobs are left.
  lemma PrunedUnique(before: JobMap, a: JobMap, b: JobMap, now: nat, recover: bool)
    requires Pruned(before, a, now, recover) && Pruned(before, b, now, recover)
    ensures a == b
  {
    var all := Candidates(before, now, recover);
    var ka, kb := a.Keys * all, b.Keys * all;
    if ka != kb {
      SizesDiffer(ka, kb);
      var x :| x in ka && x !in kb;
      var y :| y in kb && y !in ka;
      OneOutranks(EntryOf(before, now, x), EntryOf(before, now, y));
    }
    forall id ensures id in a <==> id in b {
      if id in before && Considered(before[id], recover) {
        assert id in a ==> id in ka;
        assert id in b ==> id in kb;
      }
    }
    forall id | id in a ensures a[id] == b[id] {
      assert id in before;
    }
  }

  lemma SizesDiffer(a: set<string>, b: set<string>)
    requires |a| == |b| && a != b
    ensures a - b != {} && b - a != {}
  {
    assert a == (a - b) + (a * b) && b == (b - a) + (a * b);
  }

  // ---- the pass over the jobs ----

  predicate Outdated(job: Job, now: nat, recover: bool) {
    Considered(job, recover) && Expired(Recovered(job, now), now)
  }

  // What is in memory, what it held before, what to write and what to delete.
  datatype Work = Work(jobs: JobMap, previous: JobMap, changed: JobMap, deleted: set<string>)

  // One job, after the jobs of `done` were looked at and those of `gone` found not to fit.
  ghost predicate WorkAt(was: JobMap, done: set<string>, gone: set<string>, now: nat, recover: bool, w: Work, id: string) {
    if id !in was then id !in w.jobs && id !in w.previous && id !in w.changed && id !in w.deleted
    else
      var seen := id in done && Considered(was[id], recover);
      var out := id in gone || (seen && Outdated(was[id], now, recover));
      && (id in w.jobs <==> !out) && (id in w.jobs ==> w.jobs[id] == if seen then Recovered(was[id], now) else was[id])
      && (id in w.previous <==> out || (seen && was[id].status == Running)) && (id in w.previous ==> w.previous[id] == was[id])
      && (id in w.changed <==> seen && was[id].status == Running && !out) && (id in w.changed ==> w.changed[id] == Recovered(was[id], now))
      && (id in w.deleted <==> out)
  }

  ghost predicate Working(was: JobMap, done: set<string>, gone: set<string>, now: nat, recover: bool, w: Work) {
    forall id {:trigger WorkAt(was, done, gone, now, recover, w, id)} :: WorkAt(was, done, gone, now, recover, w, id)
  }

  ghost predicate Listed(was: JobMap, done: set<string>, now: nat, recover: bool, retained: seq<Entry>) {
    && DistinctEntries(retained)
    && (forall e {:trigger e in retained} :: e in retained ==>
          e.id in done && e.id in Candidates(was, now, recover) && e == EntryOf(was, now, e.id))
    && (forall id {:trigger id in EntryIds(retained)} :: id in done && id in Candidates(was, now, recover) ==> id in EntryIds(retained))
  }

  lemma WorkStarts(was: JobMap, now: nat, recover: bool)
    ensures Working(was, {}, {}, now, recover, Work(was, map[], map[], {})) && Listed(was, {}, now, recover, [])
  {
  }

  // The next job is as it was.
  lemma WorkHolds(was: JobMap, done: set<string>, now: nat, recover: bool, w: Work, id: string)
    requires Working(was, done, {}, now, recover, w) && id in was && id !in done
    ensures id in w.jobs && w.jobs[id] == was[id] && id !in w.previous && id !in w.changed && id !in w.deleted
  {
    assert WorkAt(was, done, {}, now, recover, w, id);
  }

  // The work on one job leaves the others alone.
  ghost predicate OnlyAt(w: Work, w': Work, id: string) {
    && w'.jobs - {id} == w.jobs - {id} && w'.previous - {id} == w.previous - {id}
    && w'.changed - {id} == w.changed - {id} && w'.deleted - {id} == w.deleted - {id}
  }

  lemma WorkStep(was: JobMap, done: set<string>, gone: set<string>, done': set<string>, gone': set<string>, now: nat, recover: bool,
                 w: Work, w': Work, id: string)
    requires Working(was, done, gone, now, recover, w) && OnlyAt(w, w', id) && WorkAt(was, done', gone', now, recover, w', id)
    requires done <= done' <= done + {id} && gone <= gone' <= gone + {id}
    ensures Working(was, done', gone', now, recover, w')
  {
    forall k ensures WorkAt(was, done', gone', now, recover, w', k) {
      if k != id {
        assert WorkAt(was, done, gone, now, recover, w, k);
        SameAt(w, w', id, k);
      }
    }
  }

  lemma SameAt(w: Work, w': Work, id: string, k: string)
    requires OnlyAt(w, w', id) && k != id
    ensures (k in w'.jobs <==> k in w.jobs) && (k in w.jobs ==> w'.jobs[k] == w.jobs[k])
    ensures (k in w'.previous <==> k in w.previous) && (k in w.previous ==> w'.previous[k] == w.previous[k])
    ensures (k in w'.changed <==> k in w.changed) && (k in w.changed ==> w'.changed[k] == w.changed[k])
    ensures k in w'.deleted <==> k in w.deleted
  {
    assert k in w'.jobs - {id} <==> k in w.jobs - {id};
    assert k in w.jobs ==> (w'.jobs - {id})[k] == (w.jobs - {id})[k];
    assert k in w'.previous - {id} <==> k in w.previous - {id};
    assert k in w.previous ==> (w'.previous - {id})[k] == (w.previous - {id})[k];
    assert k in w'.changed - {id} <==> k in w.changed - {id};
    assert k in w.changed ==> (w'.changed - {id})[k] == (w.changed - {id})[k];
    assert k in w'.deleted - {id} <==> k in w.deleted - {id};
  }

  // A running job, left alone.
  lemma Passes(was: JobMap, done: set<string>, now: nat, recover: bool, w: Work, retained: seq<Entry>, id: string)
    requires Working(was, done, {}, now, recover, w) && Listed(was, done, now, recover, retained)
    requires id in was && id !in done && !Considered(was[id], recover)
    ensures Working(was, done + {id}, {}, now, recover, w) && Listed(was, done + {id}, now, recover, retained)
  {
    WorkHolds(was, done, now, recover, w, id);
    assert WorkAt(was, done + {id}, {}, now, recover, w, id);
    WorkStep(was, done, {}, done + {id}, {}, now, recover, w, w, id);
  }

  lemma Deletes(was: JobMap, done: set<string>, now: nat, recover: bool, w: Work, retained: seq<Entry>, id: string)
    requires Working(was, done, {}, now, recover, w) && Listed(was, done, now, recover, retained)
    requires id in was && id !in done && Outdated(was[id], now, recover)
    ensures Working(was, done + {id}, {}, now, recover, Work(w.jobs - {id}, w.previous[id := was[id]], w.changed, w.deleted + {id}))
    ensures Listed(was, done + {id}, now, recover, retained)
  {
    WorkHolds(was, done, now, recover, w, id);
    var w' := Work(w.jobs - {id}, w.previous[id := was[id]], w.changed, w.deleted + {id});
    assert WorkAt(was, done + {id}, {}, now, recover, w', id);
    assert OnlyAt(w, w', id);
    WorkStep(was, done, {}, done + {id}, {}, now, recover, w, w', id);
  }

  function Kept(was: JobMap, now: nat, w: Work, id: string): Work
    requires id in was
  {
    if was[id].status == Running then
      Work(w.jobs[id := Recovered(was[id], now)], w.previous[id := was[id]], w.changed[id := Recovered(was[id], now)], w.deleted)
    else w
  }

  lemma Keeps(was: JobMap, done: set<string>, now: nat, recover: bool, w: Work, retained: seq<Entry>, id: string)
    requires Working(was, done, {}, now, recover, w) && Listed(was, done, now, recover, retained)
    requires id in was && id !in done && Considered(was[id], recover) && !Expired(Recovered(was[id], now), now)
    ensures Working(was, done + {id}, {}, now, recover, Kept(was, now, w, id))
    ensures Listed(was, done + {id}, now, recover, retained + [EntryOf(was, now, id)])
  {
    WorkHolds(was, done, now, recover, w, id);
    var w' := Kept(was, now, w, id);
    assert WorkAt(was, done + {id}, {}, now, recover, w', id);
    assert OnlyAt(w, w', id);
    WorkStep(was, done, {}, done + {id}, {}, now, recover, w, w', id);
    var e := EntryOf(was, now, id);
    assert EntryIds(retained + [e]) == EntryIds(retained) + {id};
    forall i | 0 <= i < |retained| ensures retained[i].id != id { assert retained[i] in retained; }
  }

  // ---- dropping what does not fit ----

  function Without(w: Work, id: string): Work
    requires id in w.jobs
  {
    Work(w.jobs - {id}, if id in w.previous then w.previous else w.previous[id := w.jobs[id]], w.changed - {id}, w.deleted + {id})
  }

  lemma Drops(was: JobMap, gone: set<string>, now: nat, recover: bool, w: Work, id: string)
    requires Working(was, was.Keys, gone, now, recover, w) && id in was && id !in gone && id in Candidates(was, now, recover)
    ensures id in w.jobs && Working(was, was.Keys, gone + {id}, now, recover, Without(w, id))
  {
    assert WorkAt(was, was.Keys, gone, now, recover, w, id);
    var w' := Without(w, id);
    assert WorkAt(was, was.Keys, gone + {id}, now, recover, w', id);
    assert OnlyAt(w, w', id);
    WorkStep(was, was.Keys, gone, was.Keys, gone + {id}, now, recover, w, w', id);
  }

  // Undoing and committing.
  lemma Undoes(was: JobMap, gone: set<string>, now: nat, recover: bool, w: Work)
    requires Working(was, was.Keys, gone, now, recover, w)
    ensures w.jobs + w.previous == was && (w.previous == map[] ==> w.jobs == was)
  {
    forall id ensures (id in w.jobs + w.previous <==> id in was) && (id in was && id !in w.previous ==> id in w.jobs && w.jobs[id] == was[id])
      ensures id in w.previous ==> id in was && w.previous[id] == was[id]
    {
      assert WorkAt(was, was.Keys, gone, now, recover, w, id);
    }
    assert w.previous == map[] ==> w.jobs + w.previous == w.jobs;
  }

  // Rows are written under the job's own id, which is its key.
  function Rows(changed: JobMap): JobMap {
    map id | id in changed :: Compact(changed[id])
  }

  lemma Commits(was: JobMap, gone: set<string>, now: nat, recover: bool, w: Work, table: JobMap, id: string)
    requires Working(was, was.Keys, gone, now, recover, w)
    ensures Agree(was, table, id) ==> Agree(w.jobs, table + Rows(w.changed) - w.deleted, id)
  {
    assert WorkAt(was, was.Keys, gone, now, recover, w, id);
  }

  // The entries from the hundredth on are the ones to go.
  lemma Prunes(was: JobMap, retained: seq<Entry>, ranked: seq<Entry>, gone: set<string>, now: nat, recover: bool, w: Work)
    requires Listed(was, was.Keys, now, recover, retained) && ranked == Ranking(retained)
    requires Min(MaxStoredJobs, |ranked|) <= |ranked| && gone == EntryIds(ranked[Min(MaxStoredJobs, |ranked|)..])
    requires Working(was, was.Keys, gone, now, recover, w)
    ensures Pruned(was, w.jobs, now, recover)
  {
    hide WorkAt, Listed, Ranking, Considered, Recovered, Expired, Outranks, Candidates;
    var all := Candidates(was, now, recover);
    var top := Min(MaxStoredJobs, |ranked|);
    RankedListed(was, retained, ranked, now, recover);
    RankSplits(ranked, top);
    forall id ensures Outcome(was, gone, now, recover, w.jobs, id) {
      assert WorkAt(was, was.Keys, gone, now, recover, w, id);
      OutcomeIs(was, gone, now, recover, w, id);
    }
    assert w.jobs.Keys * all == EntryIds(ranked[..top]) by {
      forall id ensures id in w.jobs.Keys * all <==> id in all && id !in gone {
        assert Outcome(was, gone, now, recover, w.jobs, id);
      }
    }
    forall a, b | a in all && a in w.jobs && b in all && b !in w.jobs
      ensures Outranks(EntryOf(was, now, a), EntryOf(was, now, b))
    {
      assert a in EntryIds(ranked[..top]) && b in EntryIds(ranked[top..]) by {
        assert Outcome(was, gone, now, recover, w.jobs, b);
      }
      Earlier(was, now, ranked, top, a, b);
    }
    PrunedIs(was, gone, now, recover, w.jobs);
  }

  // What became of a job.
  ghost predicate Outcome(was: JobMap, gone: set<string>, now: nat, recover: bool, jobs: JobMap, id: string) {
    && (id in Candidates(was, now, recover) ==> id in was && (id in jobs <==> id !in gone))
    && (id in jobs ==> id in was)
    && (id in was && !Considered(was[id], recover) && id !in gone ==> id in jobs && jobs[id] == was[id])
    && (id in jobs && Considered(was[id], recover) ==> id in Candidates(was, now, recover) && jobs[id] == Recovered(was[id], now))
  }

  lemma OutcomeIs(was: JobMap, gone: set<string>, now: nat, recover: bool, w: Work, id: string)
    requires WorkAt(was, was.Keys, gone, now, recover, w, id)
    ensures Outcome(was, gone, now, recover, w.jobs, id)
  {
  }

  lemma PrunedIs(was: JobMap, gone: set<string>, now: nat, recover: bool, jobs: JobMap)
    requires forall id {:trigger Outcome(was, gone, now, recover, jobs, id)} :: Outcome(was, gone, now, recover, jobs, id)
    requires gone <= Candidates(was, now, recover) && |jobs.Keys * Candidates(was, now, recover)| == Min(MaxStoredJobs, |Candidates(was, now, recover)|)
    requires forall a, b {:trigger EntryOf(was, now, a), EntryOf(was, now, b)} ::
               var all := Candidates(was, now, recover);
               a in all && a in jobs && b in all && b !in jobs ==> Outranks(EntryOf(was, now, a), EntryOf(was, now, b))
    ensures Pruned(was, jobs, now, recover)
  {
    hide Outranks, Recovered, Expired;
    forall id {:trigger was[id]} | id in was && !Considered(was[id], recover) ensures id in jobs && jobs[id] == was[id] {
      assert Outcome(was, gone, now, recover, jobs, id);
      assert id !in Candidates(was, now, recover);
    }
    forall id | id in jobs
      ensures id in was && (Considered(was[id], recover) ==> id in Candidates(was, now, recover) && jobs[id] == Recovered(was[id], now))
    {
      assert Outcome(was, gone, now, recover, jobs, id);
    }
  }

  lemma Earlier(was: JobMap, now: nat, ranked: seq<Entry>, top: nat, a: string, b: string)
    requires Ranked(ranked) && top <= |ranked| && a in EntryIds(ranked[..top]) && b in EntryIds(ranked[top..]) && a in was && b in was
    requires forall e {:trigger e in ranked} :: e in ranked ==> e.id in was && e == EntryOf(was, now, e.id)
    ensures Outranks(EntryOf(was, now, a), EntryOf(was, now, b))
  {
    hide Outranks, EntryOf;
    var i :| 0 <= i < top && ranked[i].id == a;
    var k :| 0 <= k < |ranked| - top && ranked[top..][k].id == b;
    var j := top + k;
    assert ranked[i] in ranked && ranked[j] in ranked && ranked[j].id == b;
  }

  // Ranking lists each candidate once.
  lemma RankedListed(was: JobMap, retained: seq<Entry>, ranked: seq<Entry>, now: nat, recover: bool)
    requires Listed(was, was.Keys, now, recover, retained) && ranked == Ranking(retained)
    ensures Ranked(ranked) && EntryIds(ranked) == Candidates(was, now, recover)
    ensures forall e {:trigger e in ranked} :: e in ranked ==> e.id in was && e == EntryOf(was, now, e.id)
  {
    RankingRanked(retained);
    assert EntryIds(ranked) == EntryIds(retained);
  }

  lemma IdsOfBoth(a: seq<Entry>, b: seq<Entry>)
    requires forall x, y {:trigger x in a, y in b} :: x in a && y in b ==> x.id != y.id
    ensures EntryIds(a) == EntryIds(a + b) - EntryIds(b)
  {
    assert EntryIds(a + b) == EntryIds(a) + EntryIds(b);
    assert EntryIds(a) !! EntryIds(b);
  }

  lemma RankSplits(ranked: seq<Entry>, top: nat)
    requires Ranked(ranked) && top <= |ranked|
    ensures |EntryIds(ranked)| == |ranked| && |EntryIds(ranked[..top])| == top
    ensures EntryIds(ranked[..top]) == EntryIds(ranked) - EntryIds(ranked[top..])
  {
    hide Outranks, EntryIds;
    RankedIds(ranked);
    RankedIds(ranked[..top]);
    forall x, y {:trigger x in ranked[..top], y in ranked[top..]} | x in ranked[..top] && y in ranked[top..] ensures x.id != y.id {
      var i :| 0 <= i < top && ranked[i] == x;
      var j :| top <= j < |ranked| && ranked[j] == y;
    }
    IdsOfBoth(ranked[..top], ranked[top..]);
    assert ranked == ranked[..top] + ranked[top..];
  }

  lemma {:induction false} RankedIds(ranked: seq<Entry>)
    requires Ranked(ranked)
    ensures |EntryIds(ranked)| == |ranked|
  {
    if ranked != [] {
      var init, last := ranked[..|ranked| - 1], ranked[|ranked| - 1];
      RankedIds(init);
        assert EntryIds(ranked) == EntryIds(init) + {last.id} by { assert ranked == init + [last]; }
    }
  }

  // ---- the store's jobs ----

  class JobStore {
    var jobs: JobMap
    var table: JobMap

    constructor (rows: JobMap)
      ensures jobs == rows && table == rows
    {
      jobs, table := rows, rows;
    }

    // `order` is the order in which the map is gone through; without a change nothing is written.
    method PruneJobs(now: nat, recover: bool, order: seq<string>, commits: bool) returns (ok: bool)
      requires Keyed(jobs) && Enumerates(order, jobs.Keys)
      modifies this
      ensures commits ==> ok
      ensures ok ==> Pruned(old(jobs), jobs, now, recover)
      ensures !commits ==> jobs == old(jobs) && table == old(table)
      ensures forall id {:trigger Agree(jobs, table, id)} :: Agree(old(jobs), old(table), id) ==> Agree(jobs, table, id)
    {
      hide *;
      ghost var was, rows := jobs, table;
      var previous: JobMap, changedJobs: JobMap, deletedJobs: set<string>, changed := map[], map[], {}, false;
      var retained: seq<Entry> := [];
      WorkStarts(was, now, recover);
      OrderEnds(order, was);
      for i := 0 to |order|
        invariant Working(was, Members(order[..i]), {}, now, recover, Work(jobs, previous, changedJobs, deletedJobs))
        invariant Listed(was, Members(order[..i]), now, recover, retained)
        invariant table == rows && changed == (previous != map[])
      {
        var id := order[i];
        ghost var done := Members(order[..i]);
        OrderStep(order, was, i);
        ghost var w := Work(jobs, previous, changedJobs, deletedJobs);
        WorkHolds(was, done, now, recover, w, id);
        var job := jobs[id];
        JobIs(job, now, recover);
        if job.status == Running && !recover {
          Passes(was, done, now, recover, w, retained, id);
          continue;
        }
        if job.status == Running {
          previous := previous[id := job];
          job := job.(status := Canceled, error := "程序重启，任务已中断", probePending := 0, updatedAt := now);
          jobs, changedJobs := jobs[id := job], changedJobs[id := job];
          changed := true;
        }
        var at := if job.updatedAt == 0 then job.createdAt else job.updatedAt;
        if at != 0 && now > at && now - at > MaxAge {
          previous := if id in previous then previous else previous[id := job];
          jobs, changedJobs, deletedJobs := jobs - {id}, changedJobs - {id}, deletedJobs + {id};
          changed := true;
          Deletes(was, done, now, recover, w, retained, id);
          assert jobs == w.jobs - {id} && changedJobs == w.changed;
          continue;
        }
        Keeps(was, done, now, recover, w, retained, id);
        KeptIs(was, now, w, id);
        EntryIs(was, now, id);
        retained := retained + [Entry(id, at, job.status == Parsed)];
      }
      ok := true;
      var ranked := Ranking(retained);
      TailStarts(ranked);
      var j := MaxStoredJobs;
      ghost var gone: set<string> := {};
      while j < |ranked|
        invariant MaxStoredJobs <= j && gone == Tail(ranked, j) && (j > MaxStoredJobs ==> j <= |ranked|)
        invariant Working(was, was.Keys, gone, now, recover, Work(jobs, previous, changedJobs, deletedJobs))
        invariant table == rows && changed == (previous != map[])
      {
        var id := ranked[j].id;
        TailStep(was, retained, ranked, now, recover, j);
        ghost var w := Work(jobs, previous, changedJobs, deletedJobs);
        Drops(was, gone, now, recover, w, id);
        WithoutIs(w, id);
        previous := if id in previous then previous else previous[id := jobs[id]];
        jobs, changedJobs, deletedJobs := jobs - {id}, changedJobs - {id}, deletedJobs + {id};
        changed := true;
        gone := gone + {id};
        j := j + 1;
      }
      TailEnds(ranked, j);
      ghost var w := Work(jobs, previous, changedJobs, deletedJobs);
      Prunes(was, retained, ranked, gone, now, recover, w);
      Undoes(was, gone, now, recover, w);
      if !changed {
        return;
      }
      if commits {
        forall id ensures Agree(was, rows, id) ==> Agree(jobs, rows + Rows(changedJobs) - deletedJobs, id) {
          Commits(was, gone, now, recover, w, rows, id);
        }
        table := table + Rows(changedJobs) - deletedJobs;
      } else {
        jobs := jobs + previous;
        ok := false;
      }
    }
  }

  lemma OrderEnds(order: seq<string>, was: JobMap)
    requires Enumerates(order, was.Keys)
    ensures Members(order[..0]) == {} && Members(order[..|order|]) == was.Keys
  {
    assert order[..|order|] == order;
  }

  lemma OrderStep(order: seq<string>, was: JobMap, i: nat)
    requires Enumerates(order, was.Keys) && i < |order|
    ensures order[i] in was && order[i] !in Members(order[..i]) && Members(order[..i + 1]) == Members(order[..i]) + {order[i]}
  {
    assert order[i] in order;
    assert order[..i + 1] == order[..i] + [order[i]];
  }

  lemma JobIs(job: Job, now: nat, recover: bool)
    ensures Considered(job, recover) <==> job.status != Running || recover
    ensures Recovered(job, now) ==
            if job.status == Running then job.(status := Canceled, error := "程序重启，任务已中断", probePending := 0, updatedAt := now) else job
    ensures var r := Recovered(job, now);
            var at := if r.updatedAt == 0 then r.createdAt else r.updatedAt;
            Expired(r, now) <==> at != 0 && now > at && now - at > MaxAge
    ensures Outdated(job, now, recover) <==> Considered(job, recover) && Expired(Recovered(job, now), now)
  {
  }

  lemma KeptIs(was: JobMap, now: nat, w: Work, id: string)
    requires id in was
    ensures Kept(was, now, w, id) ==
            if was[id].status == Running then
              Work(w.jobs[id := Recovered(was[id], now)], w.previous[id := was[id]], w.changed[id := Recovered(was[id], now)], w.deleted)
            else w
  {
  }

  lemma WithoutIs(w: Work, id: string)
    requires id in w.jobs
    ensures Without(w, id) ==
            Work(w.jobs - {id}, if id in w.previous then w.previous else w.previous[id := w.jobs[id]], w.changed - {id}, w.deleted + {id})
  {
  }

  lemma EntryIs(was: JobMap, now: nat, id: string)
    requires id in was
    ensures var r := Recovered(was[id], now);
            EntryOf(was, now, id) == Entry(id, if r.updatedAt == 0 then r.createdAt else r.updatedAt, r.status == Parsed)
  {
  }

  // The ids from the hundredth entry on, before the j-th.
  function Tail(ranked: seq<Entry>, j: nat): set<string> {
    if MaxStoredJobs <= j <= |ranked| then EntryIds(ranked[MaxStoredJobs..j]) else {}
  }

  lemma TailStarts(ranked: seq<Entry>)
    ensures Tail(ranked, MaxStoredJobs) == {}
  {
  }

  lemma TailStep(was: JobMap, retained: seq<Entry>, ranked: seq<Entry>, now: nat, recover: bool, j: nat)
    requires Listed(was, was.Keys, now, recover, retained) && ranked == Ranking(retained) && MaxStoredJobs <= j < |ranked|
    ensures ranked[j].id in was && ranked[j].id in Candidates(was, now, recover) && ranked[j].id !in Tail(ranked, j)
    ensures Tail(ranked, j + 1) == Tail(ranked, j) + {ranked[j].id}
  {
    RankedListed(was, retained, ranked, now, recover);
    assert ranked[j] in ranked;
    assert ranked[MaxStoredJobs..j + 1] == ranked[MaxStoredJobs..j] + [ranked[j]];
  }

  lemma TailEnds(ranked: seq<Entry>, j: nat)
    requires MaxStoredJobs <= j && j >= |ranked| && (j > MaxStoredJobs ==> j == |ranked|)
    ensures Min(MaxStoredJobs, |ranked|) <= |ranked| && Tail(ranked, j) == EntryIds(ranked[Min(MaxStoredJobs, |ranked|)..])
  {
    if |ranked| < MaxStoredJobs {
      assert ranked[|ranked|..] == [];
    } else {
      assert ranked[MaxStoredJobs..j] == ranked[MaxStoredJobs..];
    }
  }
}
